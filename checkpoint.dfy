/**
 * Checkpoint handling in the inference script's `load_model`: unwrap the
 * state dict from a DeepSpeed (`"module"`) or Lightning (`"state_dict"`)
 * checkpoint, rename the legacy `framestride_embed` parameters to
 * `fps_embedding`, and load it strictly, falling back to a non-strict load.
 *
 * Reading the file with `torch.load` is I/O: the loaded object is the input.
 * Tensors are opaque; only their identity matters here.
 */
module Checkpoint {
  import opened Runtime

  /** A loaded object: a tensor, or a dictionary with its entries in insertion order. */
  datatype Value = Tensor(id: nat) | Dict(entries: seq<(string, Value)>)

  /** The value stored under `key`, if any; Python dictionaries hold each key once, so the first is the only one. */
  function Lookup(entries: seq<(string, Value)>, key: string): (r: Option<Value>)
    ensures r.Some? <==> exists i :: 0 <= i < |entries| && entries[i].0 == key
    ensures r.Some? ==> exists i :: 0 <= i < |entries| && entries[i] == (key, r.value)
  {
    if |entries| == 0 then None
    else if entries[0].0 == key then Some(entries[0].1)
    else
      var r := Lookup(entries[1..], key);
      assert forall i :: 1 <= i < |entries| ==> entries[i] == entries[1..][i - 1];
      r
  }

  /**
   * The state dict of a loaded checkpoint: the value under `"module"` if
   * present, otherwise the one under `"state_dict"`, otherwise the object
   * itself. A loaded tensor already fails at the `"module" in` test, since a
   * tensor's membership test takes only tensors and numbers (RuntimeError);
   * an unwrapped value that is not a dictionary fails at the later `.items()`.
   */
  function Unwrap(loaded: Value): (r: Result<seq<(string, Value)>>)
    ensures loaded.Tensor? <==> r == Err(RuntimeError)
    ensures r.Err? ==> r == Err(RuntimeError) || r == Err(AttributeError("items"))
  {
    if loaded.Tensor? then Err(RuntimeError)
    else
      var inner :=
        match Lookup(loaded.entries, "module")
        case Some(m) => m
        case None =>
          match Lookup(loaded.entries, "state_dict")
          case Some(s) => s
          case None => loaded;
      if inner.Dict? then Ok(inner.entries) else Err(AttributeError("items"))
  }

  /**
   * The unwrapping order: a DeepSpeed checkpoint wins over a Lightning one,
   * and a plain state dict is used as it is.
   */
  lemma UnwrapOrder(entries: seq<(string, Value)>, inner: seq<(string, Value)>)
    ensures Lookup(entries, "module") == Some(Dict(inner)) ==> Unwrap(Dict(entries)) == Ok(inner)
    ensures Lookup(entries, "module").None? && Lookup(entries, "state_dict") == Some(Dict(inner)) ==> Unwrap(Dict(entries)) == Ok(inner)
    ensures Lookup(entries, "module").None? && Lookup(entries, "state_dict").None? ==> Unwrap(Dict(entries)) == Ok(entries)
    ensures Lookup(entries, "module").Some? && Lookup(entries, "module").value.Tensor? ==> Unwrap(Dict(entries)) == Err(AttributeError("items"))
  {
  }

  /** `pat` occurs in `s` at position `i`. */
  predicate OccursAt(s: string, pat: string, i: nat)
  {
    i + |pat| <= |s| && s[i..i + |pat|] == pat
  }

  /** `pat in s`. */
  predicate Contains(s: string, pat: string)
  {
    exists i: nat | i <= |s| :: OccursAt(s, pat, i)
  }

  /** `s.replace(pat, rep)`: every non-overlapping occurrence of `pat`, scanning left to right, replaced by `rep`. */
  function Replace(s: string, pat: string, rep: string): string
    requires |pat| > 0
    decreases |s|
  {
    if |s| < |pat| then s
    else if s[..|pat|] == pat then rep + Replace(s[|pat|..], pat, rep)
    else [s[0]] + Replace(s[1..], pat, rep)
  }

  /** A key that does not contain the pattern keeps its name. */
  lemma {:induction false} ReplaceAbsent(s: string, pat: string, rep: string)
    requires |pat| > 0 && !Contains(s, pat)
    ensures Replace(s, pat, rep) == s
    decreases |s|
  {
    if |s| >= |pat| {
      assert !OccursAt(s, pat, 0);
      assert s[..|pat|] != pat;
      assert !Contains(s[1..], pat) by {
        forall i: nat | OccursAt(s[1..], pat, i) ensures OccursAt(s, pat, i + 1) {
          assert s[1..][i..i + |pat|] == s[i + 1..i + 1 + |pat|];
        }
      }
      ReplaceAbsent(s[1..], pat, rep);
    }
  }

  /** A key that starts with the pattern has that occurrence replaced, and the rest is processed on its own. */
  lemma ReplacePrefix(pat: string, rest: string, rep: string)
    requires |pat| > 0
    ensures Replace(pat + rest, pat, rep) == rep + Replace(rest, pat, rep)
  {
    assert (pat + rest)[..|pat|] == pat;
    assert (pat + rest)[|pat|..] == rest;
  }

  /** Where `pat` does not start the text, its first character is copied. */
  lemma ReplaceStep(s: string, pat: string, rep: string)
    requires |pat| > 0 && 1 <= |s| && !OccursAt(s, pat, 0)
    ensures Replace(s, pat, rep) == [s[0]] + Replace(s[1..], pat, rep)
  {
    assert |s| >= |pat| ==> s[..|pat|] != pat;
  }

  /** An occurrence in the text after its first character is an occurrence one position further on. */
  lemma OccursShift(s: string, pat: string, i: nat)
    requires 1 <= |s|
    ensures OccursAt(s[1..], pat, i) <==> OccursAt(s, pat, i + 1)
  {
    if i + |pat| <= |s[1..]| {
      assert s[1..][i..i + |pat|] == s[i + 1..i + 1 + |pat|];
    }
  }

  /** Text before the first occurrence is copied, so replacing distributes over a pattern-free prefix. */
  lemma {:induction false} ReplaceAfterPlainPrefix(head: string, tail: string, pat: string, rep: string)
    requires |pat| > 0
    requires forall i: nat :: i < |head| ==> !OccursAt(head + tail, pat, i)
    ensures Replace(head + tail, pat, rep) == head + Replace(tail, pat, rep)
    decreases |head|
  {
    if |head| > 0 {
      var s := head + tail;
      ReplaceStep(s, pat, rep);
      assert s[1..] == head[1..] + tail;
      forall i: nat | i < |head[1..]| ensures !OccursAt(head[1..] + tail, pat, i) {
        OccursShift(s, pat, i);
      }
      ReplaceAfterPlainPrefix(head[1..], tail, pat, rep);
      var r := Replace(tail, pat, rep);
      assert Replace(s, pat, rep) == [s[0]] + (head[1..] + r);
      assert [s[0]] + (head[1..] + r) == ([s[0]] + head[1..]) + r;
      assert [s[0]] + head[1..] == head;
    } else {
      assert head + tail == tail;
    }
  }

  const LegacyName: string := "framestride_embed"
  const CurrentName: string := "fps_embedding"

  /** A key that starts with the legacy name gets the current name, the rest of the key kept. */
  lemma RenameExample()
    ensures Replace("framestride_embed.0.weight", LegacyName, CurrentName) == "fps_embedding.0.weight"
  {
    var tail := ".0.weight";
    assert "framestride_embed.0.weight" == LegacyName + tail;
    ReplacePrefix(LegacyName, tail, CurrentName);
    assert "fps_embedding.0.weight" == CurrentName + tail;
  }

  /** `{k.replace(...): v for k, v in state_dict.items()}` before the keys are merged: each entry renamed, in order. */
  function RenameEntries(entries: seq<(string, Value)>): (r: seq<(string, Value)>)
    ensures |r| == |entries|
    ensures forall i :: 0 <= i < |entries| ==> r[i] == (Replace(entries[i].0, LegacyName, CurrentName), entries[i].1)
  {
    seq(|entries|, i requires 0 <= i < |entries| => (Replace(entries[i].0, LegacyName, CurrentName), entries[i].1))
  }

  /** Building a dictionary from entries in order: a later entry overwrites an earlier one with the same key. */
  function ToMap(entries: seq<(string, Value)>): (m: map<string, Value>)
    ensures m.Keys == set i | 0 <= i < |entries| :: entries[i].0
  {
    if |entries| == 0 then map[]
    else
      var init := entries[..|entries| - 1];
      var m := ToMap(init);
      assert forall i :: 0 <= i < |entries| - 1 ==> entries[i] == init[i];
      m[entries[|entries| - 1].0 := entries[|entries| - 1].1]
  }

  /** The value a key ends up with is the one of its last entry. */
  lemma {:induction false} ToMapLastWins(entries: seq<(string, Value)>, i: nat)
    requires i < |entries|
    requires forall j :: i < j < |entries| ==> entries[j].0 != entries[i].0
    ensures ToMap(entries)[entries[i].0] == entries[i].1
  {
    var n := |entries|;
    if i < n - 1 {
      var init := entries[..n - 1];
      assert init[i] == entries[i];
      ToMapLastWins(init, i);
    }
  }

  /**
   * The renamed state dict: every key that does not contain the legacy name
   * keeps its value, and every value in the result comes from the loaded
   * state dict unchanged.
   */
  function RenamedStateDict(entries: seq<(string, Value)>): (m: map<string, Value>)
    ensures m.Keys == set i | 0 <= i < |entries| :: Replace(entries[i].0, LegacyName, CurrentName)
  {
    var r := RenameEntries(entries);
    var m := ToMap(r);
    assert (set i | 0 <= i < |r| :: r[i].0) == set i | 0 <= i < |entries| :: Replace(entries[i].0, LegacyName, CurrentName);
    m
  }

  lemma RenamedKeepsValues(entries: seq<(string, Value)>, i: nat)
    requires i < |entries|
    requires forall j :: i < j < |entries| ==>
               Replace(entries[j].0, LegacyName, CurrentName) != Replace(entries[i].0, LegacyName, CurrentName)
    ensures RenamedStateDict(entries)[Replace(entries[i].0, LegacyName, CurrentName)] == entries[i].1
    ensures !Contains(entries[i].0, LegacyName) ==>
              entries[i].0 in RenamedStateDict(entries) && RenamedStateDict(entries)[entries[i].0] == entries[i].1
  {
    ToMapLastWins(RenameEntries(entries), i);
    if !Contains(entries[i].0, LegacyName) {
      ReplaceAbsent(entries[i].0, LegacyName, CurrentName);
    }
  }

  /** How `load_state_dict` went: a strict load, or the non-strict fallback with the keys it could match. */
  datatype LoadOutcome = Strict | NonStrict(loaded: set<string>, missing: set<string>, unexpected: set<string>)

  /**
   * `model.load_state_dict(sd)`, and on failure `load_state_dict(sd,
   * strict=False)`: the strict load succeeds exactly when the keys are the
   * model's parameter names; otherwise the matching keys are loaded and the
   * rest reported.
   */
  function LoadStateDict(expected: set<string>, sd: map<string, Value>): (r: LoadOutcome)
    ensures r.Strict? <==> sd.Keys == expected
    ensures r.NonStrict? ==> r.loaded + r.missing == expected && r.loaded !! r.missing
    ensures r.NonStrict? ==> r.loaded + r.unexpected == sd.Keys && r.loaded !! r.unexpected
  {
    if sd.Keys == expected then Strict
    else NonStrict(sd.Keys * expected, expected - sd.Keys, sd.Keys - expected)
  }

  /** The checkpoint part of `load_model`: unwrap, rename, load. */
  function LoadCheckpoint(expected: set<string>, loaded: Value): (r: Result<LoadOutcome>)
    ensures r.Err? <==> Unwrap(loaded).Err?
    ensures r.Ok? ==> r.value == LoadStateDict(expected, RenamedStateDict(Unwrap(loaded).value))
  {
    match Unwrap(loaded)
    case Err(e) => Err(e)
    case Ok(entries) => Ok(LoadStateDict(expected, RenamedStateDict(entries)))
  }
}
