/**
 * `AssetLibrary`: a base path, a queue of assets to load, the map of loaded
 * assets, and the counter that decides which queue entry `load` starts and
 * when `onAssetLoaded` reports completion.
 */
module Assets {
  import opened Wrappers

  /** A loader constructor passed as `parser`; `None` selects the default loader. */
  type Parser = nat

  /** What the library stores: the texture object the texture loader returns at once, or any other value. */
  datatype Asset = TextureHandle(filePath: string, parser: Option<Parser>) | Loaded(id: nat)

  /** One `{ key, filePath, type, parser }` record of the load queue. */
  datatype QueueEntry = QueueEntry(key: string, filePath: string, assetType: string, parser: Option<Parser>)

  /**
   * What the library does that is seen from outside: a progress or a
   * completion dispatch, a load started for an entry, or the console error
   * for an entry of an unsupported type.
   */
  datatype Notice = Progress(loaded: nat, total: nat) | Complete | Started(entry: QueueEntry) | Unsupported(entry: QueueEntry)

  /** The fields that change after construction. */
  datatype LibState = LibState(loadedNumber: nat, queue: seq<QueueEntry>, assets: map<string, Asset>)

  /** `basePath` with a `/` appended when it does not already end with one. */
  function NormalizeBase(basePath: string): (r: string)
    ensures |r| > 0 && r[|r| - 1] == '/'
    ensures (|basePath| > 0 && basePath[|basePath| - 1] == '/') <==> r == basePath
    ensures r == basePath || r == basePath + "/"
  {
    if |basePath| > 0 && basePath[|basePath| - 1] == '/' then basePath else basePath + "/"
  }

  /** Normalising twice is normalising once. */
  lemma NormalizeIdempotent(basePath: string)
    ensures NormalizeBase(NormalizeBase(basePath)) == NormalizeBase(basePath)
  {
  }

  /** The counter points into the queue whenever the queue is not empty. */
  predicate WellFormed(st: LibState) {
    st.loadedNumber == 0 || st.loadedNumber < |st.queue|
  }

  /** The entry `load` would start. */
  function Current(st: LibState): QueueEntry
    requires WellFormed(st) && |st.queue| > 0
  {
    st.queue[st.loadedNumber]
  }

  /**
   * `load`: an empty queue completes at once; otherwise the current entry is
   * started by type. A texture is stored as soon as its loader returns it; a
   * model only when its callback runs; any other type is reported and not loaded.
   */
  function LoadStep(st: LibState): (r: (LibState, seq<Notice>))
    requires WellFormed(st)
    ensures r.0.loadedNumber == st.loadedNumber && r.0.queue == st.queue
    ensures |st.queue| == 0 <==> r.1 == [Complete]
    ensures |st.queue| > 0 ==>
      |r.1| == 1 && (r.1[0].Started? || r.1[0].Unsupported?) && r.1[0].entry == Current(st) &&
      (r.1[0].Started? <==> Current(st).assetType in {"Texture", "Model"})
    ensures |st.queue| > 0 && Current(st).assetType == "Texture" ==>
      r.0.assets == st.assets[Current(st).key := TextureHandle(Current(st).filePath, Current(st).parser)]
    ensures |st.queue| == 0 || Current(st).assetType != "Texture" ==> r.0.assets == st.assets
  {
    if |st.queue| == 0 then (st, [Complete])
    else
      var entry := st.queue[st.loadedNumber];
      if entry.assetType == "Texture" then
        (st.(assets := st.assets[entry.key := TextureHandle(entry.filePath, entry.parser)]), [Started(entry)])
      else if entry.assetType == "Model" then (st, [Started(entry)])
      else (st, [Unsupported(entry)])
  }

  /**
   * `onAssetLoaded` as written: report progress, then complete when the
   * counter is at the last entry and otherwise load again. Nothing moves the
   * counter on.
   */
  function OnLoadedAsWritten(st: LibState): (LibState, seq<Notice>)
    requires WellFormed(st)
  {
    var progress := Progress(st.loadedNumber, |st.queue|);
    if st.loadedNumber == |st.queue| - 1 then (st, [progress, Complete])
    else
      var (next, notices) := LoadStep(st);
      (next, [progress] + notices)
  }

  /** `onAssetLoaded` with the counter moved on to the next entry before loading again. */
  function OnLoaded(st: LibState): (r: (LibState, seq<Notice>))
    requires WellFormed(st)
    ensures WellFormed(r.0) && r.0.queue == st.queue
  {
    var progress := Progress(st.loadedNumber, |st.queue|);
    if st.loadedNumber == |st.queue| - 1 then (st, [progress, Complete])
    else
      var moved := if st.loadedNumber + 1 < |st.queue| then st.(loadedNumber := st.loadedNumber + 1) else st;
      var (next, notices) := LoadStep(moved);
      (next, [progress] + notices)
  }

  /** The state after `k` asset callbacks in a row, each answered by the as-written `onAssetLoaded`. */
  function AfterAsWritten(st: LibState, k: nat): (r: LibState)
    requires WellFormed(st)
    ensures WellFormed(r)
    decreases k
  {
    if k == 0 then st else AfterAsWritten(OnLoadedAsWritten(st).0, k - 1)
  }

  /** The state after `k` asset callbacks in a row, each answered by `onAssetLoaded` with the counter moved on. */
  function After(st: LibState, k: nat): (r: LibState)
    requires WellFormed(st)
    ensures WellFormed(r)
    decreases k
  {
    if k == 0 then st else After(OnLoaded(st).0, k - 1)
  }

  /** As written, a callback on a queue of two or more entries keeps the counter at 0 and starts the first entry again. */
  lemma RestartsFirst(st: LibState)
    requires st.loadedNumber == 0 && |st.queue| >= 2
    ensures OnLoadedAsWritten(st).0.loadedNumber == 0 && OnLoadedAsWritten(st).0.queue == st.queue
    ensures var n := OnLoadedAsWritten(st).1;
      |n| == 2 && n[0] == Progress(0, |st.queue|) && (n[1].Started? || n[1].Unsupported?) && n[1].entry == st.queue[0]
  {
  }

  /** As written, the counter stays 0 however many callbacks arrive. */
  lemma {:induction false} CounterStuck(st: LibState, k: nat)
    requires st.loadedNumber == 0 && |st.queue| >= 2
    ensures AfterAsWritten(st, k).loadedNumber == 0 && AfterAsWritten(st, k).queue == st.queue
    decreases k
  {
    if k > 0 {
      RestartsFirst(st);
      CounterStuck(OnLoadedAsWritten(st).0, k - 1);
    }
  }

  /**
   * As written, with two or more entries every callback starts the first
   * entry again and none reports completion.
   */
  lemma StuckOnFirst(st: LibState, k: nat)
    requires st.loadedNumber == 0 && |st.queue| >= 2
    ensures var n := OnLoadedAsWritten(AfterAsWritten(st, k)).1;
      |n| == 2 && (n[1].Started? || n[1].Unsupported?) && n[1].entry == st.queue[0] && Complete !in n
  {
    CounterStuck(st, k);
    RestartsFirst(AfterAsWritten(st, k));
  }

  /** A callback before the last entry moves the counter on and starts the next entry. */
  lemma NextStarted(st: LibState)
    requires WellFormed(st) && st.loadedNumber + 1 < |st.queue|
    ensures OnLoaded(st).0.loadedNumber == st.loadedNumber + 1 && OnLoaded(st).0.queue == st.queue
    ensures var n := OnLoaded(st).1;
      |n| == 2 && n[0] == Progress(st.loadedNumber, |st.queue|) &&
      (n[1].Started? || n[1].Unsupported?) && n[1].entry == st.queue[st.loadedNumber + 1]
  {
  }

  /** With the counter moved on, `k` callbacks advance it by `k` while entries remain. */
  lemma {:induction false} CounterAdvances(st: LibState, k: nat)
    requires WellFormed(st) && st.loadedNumber + k < |st.queue|
    ensures After(st, k).loadedNumber == st.loadedNumber + k && After(st, k).queue == st.queue
    decreases k
  {
    if k > 0 {
      NextStarted(st);
      CounterAdvances(OnLoaded(st).0, k - 1);
    }
  }

  /** The callback of the last entry reports completion. */
  lemma CompletesAtLast(st: LibState)
    requires WellFormed(st) && |st.queue| > 0 && st.loadedNumber == |st.queue| - 1
    ensures OnLoaded(st).1 == [Progress(|st.queue| - 1, |st.queue|), Complete]
  {
  }

  /**
   * A queue loaded from a fresh counter: `load` starts the first entry and
   * callback `j` (counting from 0) starts entry `j + 1` without completing,
   * for every entry after the first.
   */
  lemma LoadsInOrder(st: LibState, j: nat)
    requires st.loadedNumber == 0 && j + 1 < |st.queue|
    ensures LoadStep(st).1[0].entry == st.queue[0]
    ensures var n := OnLoaded(After(LoadStep(st).0, j)).1;
      |n| == 2 && (n[1].Started? || n[1].Unsupported?) && n[1].entry == st.queue[j + 1] && Complete !in n
  {
    var s0 := LoadStep(st).0;
    CounterAdvances(s0, j);
    NextStarted(After(s0, j));
  }

  /** ... and the callback after the last entry's load reports completion. */
  lemma LoadsAll(st: LibState)
    requires st.loadedNumber == 0 && |st.queue| > 0
    ensures OnLoaded(After(LoadStep(st).0, |st.queue| - 1)).1 == [Progress(|st.queue| - 1, |st.queue|), Complete]
  {
    var s0 := LoadStep(st).0;
    CounterAdvances(s0, |st.queue| - 1);
    CompletesAtLast(After(s0, |st.queue| - 1));
  }

  /** The asset library; `basePath` never changes after construction. */
  class AssetLibrary {
    const basePath: string
    var loadedNumber: nat
    var loadQueue: seq<QueueEntry>
    var assets: map<string, Asset>

    ghost function State(): LibState
      reads this
    {
      LibState(loadedNumber, loadQueue, assets)
    }

    ghost predicate Valid()
      reads this
    {
      WellFormed(State())
    }

    /** `basePath` defaults to `./` when it is not given. */
    constructor (basePath: Option<string>)
      ensures this.basePath == NormalizeBase(basePath.GetOr("./"))
      ensures State() == LibState(0, [], map[])
    {
      var path := basePath.GetOr("./");
      if |path| == 0 || path[|path| - 1] != '/' {
        path := path + "/";
      }
      this.basePath := path;
      loadedNumber := 0;
      loadQueue := [];
      assets := map[];
    }

    /** `get`: the value stored under `key`, or `undefined`. */
    function Get(key: string): (r: Option<Asset>)
      reads this
      ensures r.Some? <==> key in assets
      ensures r.Some? ==> r.value == assets[key]
    {
      if key in assets then Some(assets[key]) else None
    }

    method Set(key: string, value: Asset)
      modifies this
      ensures State() == old(State()).(assets := old(assets)[key := value])
      ensures Get(key) == Some(value)
    {
      assets := assets[key := value];
    }

    method AddLoadQueue(key: string, path: string, assetType: string, parser: Option<Parser>)
      requires Valid()
      modifies this
      ensures Valid()
      ensures State() == old(State()).(queue := old(loadQueue) + [QueueEntry(key, basePath + path, assetType, parser)])
    {
      loadQueue := loadQueue + [QueueEntry(key, basePath + path, assetType, parser)];
    }

    method Load() returns (notices: seq<Notice>)
      requires Valid()
      modifies this
      ensures Valid()
      ensures (State(), notices) == LoadStep(old(State()))
    {
      if |loadQueue| == 0 {
        return [Complete];
      }
      var asset := loadQueue[loadedNumber];
      if asset.assetType == "Texture" {
        assets := assets[asset.key := TextureHandle(asset.filePath, asset.parser)];
        notices := [Started(asset)];
      } else if asset.assetType == "Model" {
        notices := [Started(asset)];
      } else {
        notices := [Unsupported(asset)];
      }
    }

    /** The model loader's callback: store the model, then continue as `onAssetLoaded`. */
    method ModelLoaded(key: string, model: Asset) returns (notices: seq<Notice>)
      requires Valid()
      modifies this
      ensures Valid()
      ensures (State(), notices) == OnLoaded(old(State()).(assets := old(assets)[key := model]))
    {
      assets := assets[key := model];
      notices := OnAssetLoaded();
    }

    /** `onAssetLoaded`, moving the counter on before loading the next entry. */
    method OnAssetLoaded() returns (notices: seq<Notice>)
      requires Valid()
      modifies this
      ensures Valid()
      ensures (State(), notices) == OnLoaded(old(State()))
    {
      var progress := Progress(loadedNumber, |loadQueue|);
      if loadedNumber == |loadQueue| - 1 {
        return [progress, Complete];
      }
      if loadedNumber + 1 < |loadQueue| {
        loadedNumber := loadedNumber + 1;
      }
      var more := Load();
      notices := [progress] + more;
    }
  }
}
