/**
 * The older browser client's message handling and tick (src/client/index.js):
 * object updates merged into the map of drawable objects, the objects the
 * server no longer sends destroyed, what one tick sends, and how received
 * chunks replace the loaded ones.
 */
module ClientIndex {
  import opened Wrappers
  import opened Objects
  import opened Chunks
  import opened Worlds
  import opened ClientState
  import opened LegacyClientState
  import LegacyControls
  import ClientBundle

  /** An object of an `objects` message, as the older client reads it; absent fields are `None`. */
  datatype Info = Info(objType: string, key: string, name: Option<string>,
                       location: Option<Vec>, direction: Option<Dir>, velocity: Option<Vec>,
                       situation: Option<string>, props: map<string, PropValue>)

  /** A JSON message from the server, as the older client reads its `type`. */
  datatype LegacyServerMsg =
    | LegacyConfigMsg(config: string)
    | LegacyObjectsMsg(objects: seq<Info>)
    | LegacyErrorMsg(message: string)
    | LegacyUnknownMsg(tag: string)

  // Creating objects

  /**
   * `createObject(info)` as written: `'block'` reaches `new FallingBlock()`, but
   * the file never defines or imports `FallingBlock`, so that case throws a
   * ReferenceError just as an unknown type does.
   */
  function KindAsWritten(objType: string): (r: Result<Kind>)
    ensures r.Ok? <==> objType == "player"
  {
    if objType == "player" then Ok(PlayerKind)
    else if objType == "block" then Err("FallingBlock is not defined")
    else Err("unrecognized object type " + objType)
  }

  /** `createObject(info)` as intended: players and falling blocks are drawable, anything else is not. */
  function KindOf(objType: string): (r: Option<Kind>)
  {
    if objType == "player" then Some(PlayerKind)
    else if objType == "block" then Some(BlockKind)
    else None
  }

  /** Every `'block'` object makes the handler throw as written, though the intended client draws it. */
  lemma BlockRejectedAsWritten()
    ensures KindAsWritten("block").Err? && KindOf("block") == Some(BlockKind)
  {
  }

  /** Apart from `'block'`, the two versions accept the same types with the same kinds. */
  lemma KindAsWrittenElsewhere(objType: string)
    requires objType != "block"
    ensures KindAsWritten(objType).Ok? <==> KindOf(objType).Some?
    ensures KindAsWritten(objType).Ok? ==> KindAsWritten(objType).value == KindOf(objType).value
  {
  }

  /** The fields of a remote object that the handler reads or writes. */
  datatype View = View(location: Option<Vec>, direction: Option<Dir>, velocity: Option<Vec>,
                       situation: Option<string>, props: map<string, PropValue>, lastUpdateMs: real)

  function ViewOf(o: LegacyObj): View
    reads o`location, o`direction, o`velocity, o`situation, o`props, o`lastUpdateMs
  {
    View(o.location, o.direction, o.velocity, o.situation, o.props, o.lastUpdateMs)
  }

  /** The fields of a newly created object of the data's type. */
  function Fresh(info: Info): View {
    View(Some(ZERO), None, Some(ZERO), None, if info.objType == "player" then DEFAULT_PROPS else map[], 0.0)
  }

  /**
   * `createObject(info)` with the intended `'block'` case: a new player model or
   * falling block at the origin; any other type throws.
   */
  method CreateObject(info: Info) returns (r: Result<LegacyObj>)
    ensures r.Ok? <==> KindOf(info.objType).Some?
    ensures r.Ok? ==> fresh(r.value) && r.value.kind == KindOf(info.objType).value
                      && ViewOf(r.value) == Fresh(info) && !r.value.destroyed
    ensures r.Err? ==> r.message == "unrecognized object type " + info.objType
  {
    if info.objType == "player" {
      var o := new LegacyObj.Player();
      r := Ok(o);
    } else if info.objType == "block" {
      var o := new LegacyObj.Block();
      r := Ok(o);
    } else {
      r := Err("unrecognized object type " + info.objType);
    }
  }

  // The merge, as a function of the received list

  /** The fields an object has after taking `info` at time `now`: the props are merged, the rest replaced. */
  function Merged(v: View, info: Info, now: real): View {
    View(info.location, info.direction, info.velocity, info.situation, v.props + info.props, now)
  }

  /** One received object applied to the fields of all objects, by key. */
  function Step(views: map<string, View>, info: Info, now: real): map<string, View> {
    views[info.key := Merged(if info.key in views then views[info.key] else Fresh(info), info, now)]
  }

  /** The fields of all objects after the received objects are applied in order. */
  function Views(start: map<string, View>, objs: seq<Info>, now: real): map<string, View>
  {
    if objs == [] then start
    else Step(Views(start, objs[..|objs| - 1], now), objs[|objs| - 1], now)
  }

  /** The keys of a list of received objects. */
  function Keys(objs: seq<Info>): set<string>
  {
    if objs == [] then {} else Keys(objs[..|objs| - 1]) + {objs[|objs| - 1].key}
  }

  /** `Keys` holds exactly the keys that occur in the list. */
  lemma {:induction false} KeysOccur(objs: seq<Info>)
    ensures forall i :: 0 <= i < |objs| ==> objs[i].key in Keys(objs)
    ensures forall k :: k in Keys(objs) ==> exists i :: 0 <= i < |objs| && objs[i].key == k
  {
    if objs != [] {
      var init := objs[..|objs| - 1];
      KeysOccur(init);
      assert forall i :: 0 <= i < |init| ==> init[i] == objs[i];
    }
  }

  /** The last received object with key `k`. */
  function LastInfo(objs: seq<Info>, k: string): (d: Info)
    requires k in Keys(objs)
    ensures d.key == k
  {
    var last := objs[|objs| - 1];
    if last.key == k then last else LastInfo(objs[..|objs| - 1], k)
  }

  /** `LastInfo` picks an occurrence of the key with no later one. */
  lemma {:induction false} LastInfoIsLast(objs: seq<Info>, k: string) returns (i: nat)
    requires k in Keys(objs)
    ensures i < |objs| && objs[i] == LastInfo(objs, k)
    ensures forall j :: i < j < |objs| ==> objs[j].key != k
  {
    var init := objs[..|objs| - 1];
    if objs[|objs| - 1].key == k {
      i := |objs| - 1;
    } else {
      i := LastInfoIsLast(init, k);
      assert objs[i] == init[i];
      forall j | i < j < |objs|
        ensures objs[j].key != k
      {
        if j < |init| {
          assert objs[j] == init[j];
        }
      }
    }
  }

  /** Adding one received object to a prefix. */
  lemma KeysStep(objs: seq<Info>, n: nat)
    requires n < |objs|
    ensures Keys(objs[..n + 1]) == Keys(objs[..n]) + {objs[n].key}
  {
    assert objs[..n + 1][..n] == objs[..n];
  }

  /** Applying one more received object to a prefix. */
  lemma ViewsStep(start: map<string, View>, objs: seq<Info>, n: nat, now: real)
    requires n < |objs|
    ensures Views(start, objs[..n + 1], now) == Step(Views(start, objs[..n], now), objs[n], now)
  {
    assert objs[..n + 1][..n] == objs[..n];
  }

  /**
   * After the merge the keys are the stored ones and the received ones, and a
   * stored key that was not received keeps its fields.
   */
  lemma {:induction false} ViewsKeys(start: map<string, View>, objs: seq<Info>, now: real)
    ensures Views(start, objs, now).Keys == start.Keys + Keys(objs)
    ensures forall k :: k in start && k !in Keys(objs) ==> Views(start, objs, now)[k] == start[k]
  {
    if objs != [] {
      ViewsKeys(start, objs[..|objs| - 1], now);
      KeysStep(objs, |objs| - 1);
      assert objs[..|objs| - 1 + 1] == objs;
    }
  }

  /**
   * Each received key ends with the location, direction, velocity and situation
   * of its last occurrence, the time of this message, and at least the props of
   * that occurrence; props already held are never removed.
   */
  lemma {:induction false} ViewsLast(start: map<string, View>, objs: seq<Info>, now: real, k: string)
    requires k in Keys(objs)
    ensures k in Views(start, objs, now)
    ensures var v, d := Views(start, objs, now)[k], LastInfo(objs, k);
      && v.location == d.location && v.direction == d.direction
      && v.velocity == d.velocity && v.situation == d.situation && v.lastUpdateMs == now
      && (forall p :: p in d.props ==> p in v.props && v.props[p] == d.props[p])
      && (k in start ==> start[k].props.Keys <= v.props.Keys)
  {
    var init := objs[..|objs| - 1];
    var last := objs[|objs| - 1];
    ViewsKeys(start, init, now);
    if last.key != k {
      ViewsLast(start, init, now, k);
    } else if k in Keys(init) {
      ViewsLast(start, init, now, k);
    }
  }

  // The merge, step by step

  /** `views` holds the fields of every stored object, by key, and no other key. */
  ghost predicate Snapshot(objects: map<string, LegacyObj>, views: map<string, View>)
    reads objects.Values
  {
    objects.Keys == views.Keys && forall k :: k in objects ==> ViewOf(objects[k]) == views[k]
  }

  /** The fields of the stored objects, by key. */
  ghost function ViewMap(objects: map<string, LegacyObj>): (views: map<string, View>)
    reads objects.Values
    ensures Snapshot(objects, views)
  {
    map k | k in objects :: ViewOf(objects[k])
  }

  /**
   * `obj = state.objects[info.key]`, created and stored when missing: the
   * stored object, or a new one stored under the key; an unknown type with a
   * new key throws and nothing is stored.
   */
  method FindOrCreate(state: LegacyState, info: Info) returns (r: Result<LegacyObj>)
    requires ClientBundle.Distinct(state.objects)
    modifies state`objects
    ensures ClientBundle.Distinct(state.objects)
    ensures r.Err? <==> info.key !in old(state.objects) && KindOf(info.objType).None?
    ensures r.Err? ==> state.objects == old(state.objects)
    ensures r.Ok? ==> state.objects == old(state.objects)[info.key := r.value]
    ensures r.Ok? && info.key in old(state.objects) ==> r.value == old(state.objects[info.key])
    ensures r.Ok? && info.key !in old(state.objects) ==> fresh(r.value) && ViewOf(r.value) == Fresh(info)
  {
    if info.key in state.objects {
      return Ok(state.objects[info.key]);
    }
    r := CreateObject(info);
    if r.Ok? {
      state.objects := state.objects[info.key := r.value];
    }
  }

  /**
   * The field copies of the `forEach`: location, direction, velocity and
   * situation are replaced, absent ones included; the props are merged, the
   * received ones winning; the update time becomes `now`.
   */
  method Absorb(obj: LegacyObj, info: Info, now: real)
    modifies obj`location, obj`direction, obj`velocity, obj`situation, obj`props, obj`lastUpdateMs
    ensures ViewOf(obj) == Merged(old(ViewOf(obj)), info, now)
  {
    obj.location, obj.direction, obj.velocity, obj.situation, obj.props, obj.lastUpdateMs :=
      info.location, info.direction, info.velocity, info.situation, obj.props + info.props, now;
  }

  /**
   * One step of the `forEach` over the received objects: the object under the
   * key, or a new one, takes the received fields and no other stored object
   * changes, so the stored fields move on by `Step`.  A new key of an unknown
   * type throws before anything changes.
   */
  method MergeOne(state: LegacyState, info: Info, now: real, ghost views: map<string, View>) returns (r: Outcome)
    requires ClientBundle.Distinct(state.objects) && Snapshot(state.objects, views)
    modifies state`objects, if info.key in state.objects then {state.objects[info.key]} else {}
    ensures ClientBundle.Distinct(state.objects)
    ensures r.Fail? <==> info.key !in old(state.objects) && KindOf(info.objType).None?
    ensures r.Fail? ==> state.objects == old(state.objects)
    ensures r.Pass? ==> state.objects.Keys == old(state.objects.Keys) + {info.key}
    ensures r.Pass? ==> Snapshot(state.objects, Step(views, info, now))
    ensures forall k :: k in old(state.objects) ==> k in state.objects && state.objects[k] == old(state.objects[k])
    ensures forall o :: o in state.objects.Values ==> o in old(state.objects.Values) || fresh(o)
  {
    ghost var before := state.objects;
    var found := FindOrCreate(state, info);
    if found.Err? {
      return Fail(found.message);
    }
    var obj := found.value;
    Absorb(obj, info, now);
    r := Pass;
    forall k | k in state.objects
      ensures ViewOf(state.objects[k]) == Step(views, info, now)[k]
    {
      if k != info.key {
        assert before[k] != obj;
      }
    }
  }

  /** Object `i` of the list has a new key that no earlier object used, and a type the client cannot draw. */
  predicate FailsAt(objs: seq<Info>, i: int, known: set<string>)
    requires 0 <= i < |objs|
  {
    KindOf(objs[i].objType).None? && objs[i].key !in known && objs[i].key !in Keys(objs[..i])
  }

  /** No object before position `n` fails. */
  predicate NoneFailsBefore(objs: seq<Info>, n: int, known: set<string>)
    requires n <= |objs|
  {
    forall j :: 0 <= j < n ==> !FailsAt(objs, j, known)
  }

  lemma NoneFailsStep(objs: seq<Info>, n: int, known: set<string>)
    requires 0 <= n < |objs| && NoneFailsBefore(objs, n, known) && !FailsAt(objs, n, known)
    ensures NoneFailsBefore(objs, n + 1, known)
  {
  }

  /**
   * The merge after the first `n` received objects: the keys are the known
   * ones and the received ones, known keys keep their objects, and `views` is
   * the fold of the first `n` objects over the stored fields `start`.
   */
  ghost predicate MergeState(objects: map<string, LegacyObj>, views: map<string, View>, objs: seq<Info>, n: nat,
                             known: map<string, LegacyObj>, start: map<string, View>, now: real)
  {
    && n <= |objs|
    && ClientBundle.Distinct(objects)
    && start.Keys == known.Keys
    && objects.Keys == known.Keys + Keys(objs[..n])
    && (forall k :: k in known ==> k in objects && objects[k] == known[k])
    && views == Views(start, objs[..n], now)
  }

  /** The merge state, with the stored fields in `views` and no failure so far. */
  ghost predicate Merging(objects: map<string, LegacyObj>, views: map<string, View>, objs: seq<Info>, n: nat,
                          known: map<string, LegacyObj>, start: map<string, View>, now: real)
    reads objects.Values
  {
    && MergeState(objects, views, objs, n, known, start, now)
    && Snapshot(objects, views) && NoneFailsBefore(objs, n, known.Keys)
  }

  /** Before the first object, the merge state is the stored objects themselves. */
  lemma MergeStart(objects: map<string, LegacyObj>, objs: seq<Info>, start: map<string, View>, now: real)
    requires ClientBundle.Distinct(objects) && start.Keys == objects.Keys
    ensures MergeState(objects, start, objs, 0, objects, start, now)
  {
    assert objs[..0] == [];
  }

  /** One merged object moves the merge state on by one, whatever the heap holds. */
  lemma MergeStep(objects: map<string, LegacyObj>, objects': map<string, LegacyObj>, views: map<string, View>,
                  objs: seq<Info>, n: nat, known: map<string, LegacyObj>, start: map<string, View>, now: real)
    requires n < |objs|
    requires MergeState(objects, views, objs, n, known, start, now)
    requires ClientBundle.Distinct(objects')
    requires objects'.Keys == objects.Keys + {objs[n].key}
    requires forall k :: k in objects ==> objects'[k] == objects[k]
    ensures MergeState(objects', Step(views, objs[n], now), objs, n + 1, known, start, now)
  {
    KeysStep(objs, n);
    ViewsStep(start, objs, n, now);
  }

  /** Merging object `n`: the merge state moves on by one, or the step fails exactly as `FailsAt` says. */
  method MergeNext(state: LegacyState, objs: seq<Info>, n: nat, now: real,
                   ghost known: map<string, LegacyObj>, ghost start: map<string, View>, ghost views: map<string, View>)
    returns (r: Outcome, ghost views': map<string, View>)
    requires n < |objs|
    requires Merging(state.objects, views, objs, n, known, start, now)
    modifies state`objects, if objs[n].key in state.objects then {state.objects[objs[n].key]} else {}
    ensures r.Fail? <==> FailsAt(objs, n, known.Keys)
    ensures r.Fail? ==> state.objects == old(state.objects)
    ensures r.Pass? ==> Merging(state.objects, views', objs, n + 1, known, start, now)
    ensures forall o :: o in state.objects.Values ==> o in old(state.objects.Values) || fresh(o)
  {
    ghost var objects := state.objects;
    views' := Step(views, objs[n], now);
    r := MergeOne(state, objs[n], now, views);
    if r.Pass? {
      MergeStep(objects, state.objects, views, objs, n, known, start, now);
      NoneFailsStep(objs, n, known.Keys);
    }
  }

  /**
   * The first `forEach` of `handleObjects`: the received objects are merged in
   * order into the stored ones; it throws at the first new key of a type the
   * client cannot draw.
   */
  method MergeAll(state: LegacyState, objs: seq<Info>, now: real) returns (r: Outcome)
    requires ClientBundle.Distinct(state.objects)
    modifies state`objects, state.objects.Values
    ensures r.Fail? <==> exists i :: 0 <= i < |objs| && FailsAt(objs, i, old(state.objects.Keys))
    ensures old(state.objects.Keys) <= state.objects.Keys
    ensures forall o :: o in state.objects.Values ==> o in old(state.objects.Values) || fresh(o)
    ensures r.Pass? ==>
      && ClientBundle.Distinct(state.objects)
      && state.objects.Keys == old(state.objects.Keys) + Keys(objs)
      && (forall k :: k in old(state.objects) ==> state.objects[k] == old(state.objects[k]))
      && Snapshot(state.objects, Views(old(ViewMap(state.objects)), objs, now))
  {
    ghost var known := state.objects;
    ghost var start := ViewMap(state.objects);
    ghost var views := start;
    MergeStart(known, objs, start, now);
    var i := 0;
    while i < |objs|
      invariant 0 <= i <= |objs|
      invariant Merging(state.objects, views, objs, i, known, start, now)
      invariant forall o :: o in state.objects.Values ==> o in known.Values || fresh(o)
    {
      r, views := MergeNext(state, objs, i, now, known, start, views);
      if r.Fail? {
        return;
      }
      i := i + 1;
    }
    r := Pass;
    assert objs[..|objs|] == objs;
  }

  /**
   * The second `forEach` of `handleObjects`: every stored key that is neither
   * in `keys` nor `'self'` has its object destroyed and is deleted; the other
   * keys keep their objects, and nothing but the destroyed flags changes.
   */
  method DropStale(state: LegacyState, keys: set<string>)
    requires ClientBundle.Distinct(state.objects)
    modifies state`objects, state.objects.Values`destroyed
    ensures forall k :: k in state.objects <==> k in old(state.objects) && (k in keys || k == "self")
    ensures forall k :: k in state.objects ==> state.objects[k] == old(state.objects[k])
    ensures forall k :: k in state.objects ==> state.objects[k].destroyed == old(state.objects[k].destroyed)
    ensures forall k :: k in old(state.objects) && k !in state.objects ==> old(state.objects[k]).destroyed
  {
    var rest := state.objects.Keys;
    while rest != {}
      invariant rest <= old(state.objects.Keys)
      invariant forall k :: k in state.objects <==> k in old(state.objects) && (k in keys || k == "self" || k in rest)
      invariant forall k :: k in state.objects ==> state.objects[k] == old(state.objects[k])
      invariant forall k :: k in state.objects ==> state.objects[k].destroyed == old(state.objects[k].destroyed)
      invariant forall k :: k in old(state.objects) && k !in state.objects ==> old(state.objects[k]).destroyed
      decreases rest
    {
      var k :| k in rest;
      if k !in keys && k != "self" {
        state.objects[k].Destroy();
        state.objects := state.objects - {k};
      }
      rest := rest - {k};
    }
  }

  /**
   * `handleObjects(msg)` at time `now`: every received object is merged, in
   * order, into the object stored under its key (created when new), so each
   * key ends with the fields `Views` computes; then every key the message does
   * not name, except `'self'`, has its object destroyed and deleted.  The
   * handler throws exactly when an object with a new key has a type the client
   * cannot draw, and then nothing is deleted.
   */
  method HandleObjects(state: LegacyState, objs: seq<Info>, now: real) returns (r: Outcome)
    requires ClientBundle.Distinct(state.objects)
    modifies state`objects, state.objects.Values
    ensures r.Fail? <==> exists i :: 0 <= i < |objs| && FailsAt(objs, i, old(state.objects.Keys))
    ensures r.Fail? ==> old(state.objects.Keys) <= state.objects.Keys
    ensures r.Pass? ==> forall k :: k in state.objects <==> k in Keys(objs) || (k == "self" && k in old(state.objects))
    ensures r.Pass? ==> forall k :: k in state.objects ==>
      k in Views(old(ViewMap(state.objects)), objs, now) && ViewOf(state.objects[k]) == Views(old(ViewMap(state.objects)), objs, now)[k]
    ensures r.Pass? ==> forall k :: k in old(state.objects) && k in state.objects ==> state.objects[k] == old(state.objects[k])
    ensures r.Pass? ==> forall k :: k in old(state.objects) && k !in state.objects ==> old(state.objects[k]).destroyed
  {
    r := MergeAll(state, objs, now);
    if r.Fail? {
      return;
    }
    DropStale(state, Keys(objs));
  }

  // The other server messages

  /** The `binary` handler: the received chunks become the pending chunk updates. */
  method HandleBinary(state: LegacyState, chunks: seq<Chunk>)
    modifies state`pendingChunkUpdates
    ensures state.pendingChunkUpdates == chunks
  {
    state.pendingChunkUpdates := chunks;
  }

  /**
   * The `json` handler at time `now`: `config` stores the configuration,
   * `objects` runs `handleObjects`, `error` hands its message to the splash
   * screen (returned in `shown`), and any other type is ignored.
   */
  method HandleJson(state: LegacyState, msg: LegacyServerMsg, now: real) returns (r: Outcome, shown: Option<string>)
    requires ClientBundle.Distinct(state.objects)
    modifies state`config, state`objects, state.objects.Values
    ensures !msg.LegacyObjectsMsg? ==> r.Pass? && state.objects == old(state.objects)
    ensures shown == if msg.LegacyErrorMsg? then Some(msg.message) else None
    ensures state.config == if msg.LegacyConfigMsg? then Some(msg.config) else old(state.config)
    ensures msg.LegacyObjectsMsg? ==>
      (r.Fail? <==> exists i :: 0 <= i < |msg.objects| && FailsAt(msg.objects, i, old(state.objects.Keys)))
    ensures msg.LegacyObjectsMsg? && r.Pass? ==>
      forall k :: k in state.objects <==> k in Keys(msg.objects) || (k == "self" && k in old(state.objects))
  {
    r, shown := Pass, None;
    match msg {
      case LegacyConfigMsg(config) => {
        state.config := Some(config);
      }
      case LegacyObjectsMsg(objs) => {
        r := HandleObjects(state, objs, now);
      }
      case LegacyErrorMsg(message) => {
        shown := Some(message);
      }
      case LegacyUnknownMsg(_) => {
      }
    }
  }

  // The tick

  /**
   * The block-interaction part of `tick()`: unless paused, the controls act and
   * the command they return, if any, is queued.
   */
  method TickControls(state: LegacyState, shell: Shell) returns (command: Option<Command>)
    requires state.world.Valid()
    modifies state`pendingCommands, state.player`camera, state`showHUD, state.world, state.world.chunkTable.Values
    ensures state.world.Valid()
    ensures state.pendingCommands == old(state.pendingCommands) + (if command.Some? then [command.value] else [])
    ensures state.paused ==> command == None && unchanged(state.world) && unchanged(state.world.chunkTable.Values)
    ensures !state.paused && LegacyControls.Breaks(shell) ==> (command.Some? <==> state.player.lookAtBlock.Some?)
    ensures command.Some? ==> command.value.SetVoxCmd? && state.world.GetVox(command.value.At()) == command.value.v
    ensures command.Some? ==> forall q :: OriginOf(q) != OriginOf(command.value.At()) ==>
      state.world.GetVox(q) == old(state.world.GetVox(q))
    ensures command.None? ==> unchanged(state.world) && unchanged(state.world.chunkTable.Values)
  {
    command := None;
    if !state.paused {
      command := LegacyControls.Interact(state, shell);
    }
    if command.Some? {
      state.pendingCommands := state.pendingCommands + [command.value];
    }
  }

  /**
   * The client/server part of `tick()`: when the socket is open, one update
   * carrying the player record and the whole queue is sent and the queue is
   * emptied; otherwise nothing changes.
   */
  method SendUpdate(state: LegacyState)
    modifies state`pendingCommands, state.socket`sent
    ensures state.socket.ready ==>
      && state.socket.sent == old(state.socket.sent) + [LegacyUpdate(RecordOf(state.player), old(state.pendingCommands))]
      && state.pendingCommands == []
    ensures !state.socket.ready ==>
      state.socket.sent == old(state.socket.sent) && state.pendingCommands == old(state.pendingCommands)
  {
    if state.socket.ready {
      var sent := state.socket.Send(LegacyUpdate(RecordOf(state.player), state.pendingCommands));
      state.pendingCommands := [];
    }
  }

  /**
   * `tick()` with the block the picker found: nothing once an error was shown.
   * Otherwise the pick is stored in the player's target, the controls act
   * (`TickControls`) and the update is sent (`SendUpdate`); `queued` is the
   * command queue as it stands before the send.
   */
  method Tick(state: LegacyState, shell: Shell, picked: Option<LookAt>) returns (ghost queued: seq<Command>)
    requires state.world.Valid()
    modifies state.player`lookAtBlock, state.player`camera, state`showHUD, state`pendingCommands
    modifies state.world, state.world.chunkTable.Values, state.socket`sent
    ensures state.world.Valid()
    ensures old(state.error).Some? ==>
      && unchanged(state) && unchanged(state.player) && unchanged(state.socket)
      && unchanged(state.world) && unchanged(state.world.chunkTable.Values)
    ensures old(state.error).None? ==> state.player.lookAtBlock == picked
    ensures old(state.error).None? ==>
      (queued == old(state.pendingCommands) || exists c :: queued == old(state.pendingCommands) + [c] && c.SetVoxCmd?)
    ensures old(state.error).None? && state.paused ==> queued == old(state.pendingCommands)
    ensures old(state.error).None? && state.socket.ready ==>
      && state.socket.sent == old(state.socket.sent) + [LegacyUpdate(RecordOf(state.player), queued)]
      && state.pendingCommands == []
    ensures old(state.error).None? && !state.socket.ready ==>
      state.socket.sent == old(state.socket.sent) && state.pendingCommands == queued
  {
    queued := state.pendingCommands;
    if state.error.Some? {
      return;
    }
    state.player.lookAtBlock := picked;
    var command := TickControls(state, shell);
    queued := state.pendingCommands;
    SendUpdate(state);
  }

  /**
   * `applyChunkUpdates()`: each pending chunk replaces the loaded chunk at its
   * origin, in order, and the pending list is emptied.
   */
  method ApplyChunkUpdates(state: LegacyState)
    requires state.world.Valid()
    modifies state`pendingChunkUpdates, state.world, state.world.chunks, state.pendingChunkUpdates
    ensures state.world.Valid()
    ensures state.world.chunkTable == ClientBundle.ReplaceAll(old(state.world.chunkTable), old(state.pendingChunkUpdates))
    ensures state.pendingChunkUpdates == []
  {
    var chunks := state.pendingChunkUpdates;
    if |chunks| > 0 {
      var i := 0;
      while i < |chunks|
        invariant 0 <= i <= |chunks|
        invariant state.world.Valid()
        invariant state.world.chunkTable == ClientBundle.ReplaceAll(old(state.world.chunkTable), chunks[..i])
        invariant forall c :: c in state.world.chunks ==> c in old(state.world.chunks) || c in chunks
      {
        state.world.ReplaceChunk(chunks[i]);
        assert chunks[..i + 1][..i] == chunks[..i];
        i := i + 1;
      }
      assert chunks[..|chunks|] == chunks;
      state.pendingChunkUpdates := [];
    }
  }
}
