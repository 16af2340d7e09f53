/**
 * The model registry of the inference script's `Image2Video`: the loaded
 * networks and their single-image preprocessors, keyed by model name, and
 * the selection step of `get_image` that keeps at most one network on the
 * accelerator.
 *
 * Loading a model from its metadata file and checkpoint is I/O; the freshly
 * loaded network and preprocessor are passed in.
 */
module Registry {

  datatype Device = Cpu | Accelerator

  /** A loaded network: which checkpoint it was built from, and where its weights are. */
  datatype Network = Network(checkpoint: string, device: Device)

  /** A `SingleImageForInference` preprocessor: clip length and (height, width). */
  datatype Processor = Processor(videoLength: nat, height: nat, width: nat)

  /**
   * The registry after selecting `name`: every other network moved to the
   * CPU, `name` loaded from `loaded` only if it was absent, then moved to the
   * accelerator.
   */
  function Selected(models: map<string, Network>, name: string, loaded: Network): (r: map<string, Network>)
  {
    map k | k in models.Keys + {name} ::
      if k == name then (if name in models then models[name] else loaded).(device := Accelerator)
      else models[k].(device := Cpu)
  }

  /**
   * After a selection the chosen network is present and on the accelerator,
   * it is the only network there, no other network is added or dropped, and
   * every network keeps the checkpoint it was built from: a model that was
   * already present is never reloaded.
   */
  lemma SelectedProperties(models: map<string, Network>, name: string, loaded: Network)
    ensures var r := Selected(models, name, loaded);
            r.Keys == models.Keys + {name} && r[name].device == Accelerator
    ensures var r := Selected(models, name, loaded);
            forall k :: k in r && r[k].device == Accelerator ==> k == name
    ensures var r := Selected(models, name, loaded);
            forall k :: k in models ==> r[k].checkpoint == models[k].checkpoint
    ensures name !in models ==> Selected(models, name, loaded)[name].checkpoint == loaded.checkpoint
  {
  }

  /** Selecting the same model twice in a row is the same as selecting it once. */
  lemma SelectedIdempotent(models: map<string, Network>, name: string, loaded: Network, again: Network)
    ensures Selected(Selected(models, name, loaded), name, again) == Selected(models, name, loaded)
  {
    var once := Selected(models, name, loaded);
    var twice := Selected(once, name, again);
    assert twice.Keys == once.Keys;
    forall k | k in once ensures twice[k] == once[k] {
      if k != name {
        assert once[k].device == Cpu;
      }
    }
  }

  /** Every network other than `name` moved to the CPU; nothing added or dropped. */
  function Offloaded(models: map<string, Network>, name: string): (r: map<string, Network>)
  {
    map k | k in models :: if k == name then models[k] else models[k].(device := Cpu)
  }

  /** Selecting is offloading the others, loading `name` if absent, and moving it to the accelerator. */
  lemma SelectedAfterOffload(models: map<string, Network>, name: string, loaded: Network)
    ensures var off := Offloaded(models, name);
            var present := if name in off then off else off[name := loaded];
            Selected(models, name, loaded) == present[name := present[name].(device := Accelerator)]
  {
    var off := Offloaded(models, name);
    var present := if name in off then off else off[name := loaded];
    var r := present[name := present[name].(device := Accelerator)];
    var s := Selected(models, name, loaded);
    assert s.Keys == r.Keys;
    forall k | k in s ensures s[k] == r[k] {
    }
  }

  class Image2Video {
    /** `self.models`. */
    var models: map<string, Network>
    /** `self.single_image_processors`. */
    var processors: map<string, Processor>

    /** Both dictionaries are filled together, so they hold the same names. */
    predicate Valid()
      reads this
    {
      models.Keys == processors.Keys
    }

    constructor ()
      ensures models == map[] && processors == map[]
      ensures Valid()
    {
      models := map[];
      processors := map[];
    }

    /**
     * `get_image`, lines selecting the model: move every other network to
     * the CPU, load `name` if it is not there yet, move it to the
     * accelerator and return it with its preprocessor.
     */
    method SelectModel(name: string, loaded: Network, loadedProcessor: Processor) returns (model: Network, processor: Processor)
      requires Valid()
      modifies this
      ensures Valid()
      ensures models == Selected(old(models), name, loaded)
      ensures processors == if name in old(processors) then old(processors) else old(processors)[name := loadedProcessor]
      ensures model == models[name] && processor == processors[name]
    {
      OffloadOthers(name);
      SelectedAfterOffload(old(models), name, loaded);
      if name !in models {
        models := models[name := loaded];
        processors := processors[name := loadedProcessor];
      }
      models := models[name := models[name].(device := Accelerator)];
      model := models[name];
      processor := processors[name];
    }

    /** The loop of `get_image` that moves every network other than `name` to the CPU. */
    method OffloadOthers(name: string)
      modifies this
      ensures models == Offloaded(old(models), name) && processors == old(processors)
    {
      var pending := models.Keys - {name};
      while pending != {}
        invariant pending <= old(models).Keys - {name}
        invariant models.Keys == old(models).Keys && processors == old(processors)
        invariant forall k :: k in models ==>
                    models[k] == if k != name && k !in pending then old(models)[k].(device := Cpu) else old(models)[k]
        decreases pending
      {
        var k :| k in pending;
        models := models[k := models[k].(device := Cpu)];
        pending := pending - {k};
      }
      assert models == Offloaded(old(models), name);
    }
  }
}
