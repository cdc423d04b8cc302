/**
 * The current browser client's message handling and tick (src/client/bundle.ts):
 * what each server message does to the client state, how object updates are
 * merged into the object map, what one tick sends, and how received chunks
 * replace the loaded ones.
 */
module ClientBundle {
  import opened Wrappers
  import opened Objects
  import opened Chunks
  import opened Worlds
  import opened ClientState
  import PlayerControls
  import Splash
  import BazookaGame

  /** A JSON message from the server, as the client reads its `type`. */
  datatype ServerMsg =
    | HandshakeMsg
    | ConfigMsg(config: string)
    | ObjectsMsg(objects: seq<ObjData>, playerKey: Option<string>)
    | ErrorMsg(message: string)
    | StatusMsg(gameStatus: GameStatus, alivePlayers: int, totalPlayers: int)
    | UnknownMsg(tag: string)

  // Object updates

  /** The fields every object update carries. */
  datatype Common = Common(objType: ObjType, key: string, location: Vec, velocity: Vec, lastUpdateMs: real)

  function CommonOf(d: ObjData): Common {
    Common(d.objType, d.key, d.location, d.velocity, d.lastUpdateMs)
  }

  /** For each key of the list, the common fields of its last occurrence. */
  function LastCommons(objs: seq<ObjData>): map<string, Common>
  {
    if objs == [] then map[]
    else LastCommons(objs[..|objs| - 1])[objs[|objs| - 1].key := CommonOf(objs[|objs| - 1])]
  }

  /** The keys of a list of objects. */
  function KeysOf(objs: seq<ObjData>): set<string>
  {
    LastCommons(objs).Keys
  }

  /** `KeysOf` holds exactly the keys that occur in the list. */
  lemma {:induction false} KeysOfOccur(objs: seq<ObjData>)
    ensures forall i :: 0 <= i < |objs| ==> objs[i].key in KeysOf(objs)
    ensures forall k :: k in KeysOf(objs) ==> exists i :: 0 <= i < |objs| && objs[i].key == k
  {
    if objs != [] {
      var init := objs[..|objs| - 1];
      KeysOfOccur(init);
      assert KeysOf(objs) == KeysOf(init) + {objs[|objs| - 1].key};
      assert forall i :: 0 <= i < |init| ==> init[i] == objs[i];
    }
  }

  /** The last object of the list with key `k`: the one whose fields win. */
  function LastWith(objs: seq<ObjData>, k: string): (d: ObjData)
    requires k in KeysOf(objs)
    ensures d.key == k
  {
    var last := objs[|objs| - 1];
    if last.key == k then last else LastWith(objs[..|objs| - 1], k)
  }

  /** `LastWith` picks an occurrence of the key with no later one. */
  lemma {:induction false} LastWithIsLast(objs: seq<ObjData>, k: string) returns (i: nat)
    requires k in KeysOf(objs)
    ensures i < |objs| && objs[i] == LastWith(objs, k)
    ensures forall j :: i < j < |objs| ==> objs[j].key != k
  {
    var init := objs[..|objs| - 1];
    if objs[|objs| - 1].key == k {
      i := |objs| - 1;
    } else {
      i := LastWithIsLast(init, k);
      assert objs[i] == init[i];
      forall j | i < j < |objs|
        ensures objs[j].key != k
      {
        if j < |init| {
          assert objs[j] == init[j];
        }
      }
    }
  }

  /** No object is stored under two keys. */
  ghost predicate Distinct<T>(m: map<string, T>) {
    forall a, b {:trigger m[a], m[b]} :: a in m && b in m && a != b ==> m[a] != m[b]
  }

  ghost function CommonOfObj(o: GameObj): Common
    reads o
  {
    Common(o.objType, o.key, o.location, o.velocity, o.lastUpdateMs)
  }

  /** The fields of every stored object, by key. */
  ghost function FieldMap(objects: map<string, GameObj>): map<string, Fields>
    reads objects.Values
  {
    map k | k in objects :: FieldsOf(objects[k])
  }

  /** `fields` holds the fields of every stored object, by key. */
  ghost predicate Snapshot(objects: map<string, GameObj>, fields: map<string, Fields>)
    reads objects.Values
  {
    forall k :: k in objects ==> k in fields && FieldsOf(objects[k]) == fields[k]
  }

  /**
   * The fields of the object `createObject(d)` builds: at the origin, at rest,
   * never updated, with the empty name; a player starts AIRBORNE in BAZOOKA mode.
   */
  function Created(d: ObjData): Fields {
    Fields(d.objType, d.key, ZERO, ZERO, 0.0, "", Dir(0.0, 0.0),
           if d.objType == PlayerType then Some(Airborne) else None, Bazooka, 0.0, 0.0, 0, None, None)
  }

  /** Merging `d` into the fields by key: the stored object, or a new one when the key is new, is assigned `d`. */
  function MergedOne(fields: map<string, Fields>, d: ObjData): map<string, Fields> {
    fields[d.key := Assigned(if d.key in fields then fields[d.key] else Created(d), d)]
  }

  /** The fields by key after merging every object of the list, in order. */
  function Merged(fields: map<string, Fields>, objs: seq<ObjData>): map<string, Fields>
  {
    if objs == [] then fields else MergedOne(Merged(fields, objs[..|objs| - 1]), objs[|objs| - 1])
  }

  /** Merging adds exactly the list's keys, and a key outside the list keeps its fields. */
  lemma {:induction false} MergedKeys(fields: map<string, Fields>, objs: seq<ObjData>)
    ensures Merged(fields, objs).Keys == fields.Keys + KeysOf(objs)
    ensures forall k :: k in fields && k !in KeysOf(objs) ==> Merged(fields, objs)[k] == fields[k]
  {
    if objs != [] {
      MergedKeys(fields, objs[..|objs| - 1]);
    }
  }

  /**
   * A key of the list ends with the fields of its last occurrence: assigning
   * that occurrence again changes nothing, so its common fields and every field
   * it carries are the merged object's.
   */
  lemma {:induction false} MergedLast(fields: map<string, Fields>, objs: seq<ObjData>, k: string)
    requires k in KeysOf(objs)
    ensures k in Merged(fields, objs)
    ensures Merged(fields, objs)[k] == Assigned(Merged(fields, objs)[k], LastWith(objs, k))
  {
    var init := objs[..|objs| - 1];
    if objs[|objs| - 1].key != k {
      MergedLast(fields, init, k);
    }
  }

  /** `LastCommons` holds, for each key, the fields of the last object with that key. */
  lemma {:induction false} LastCommonsAreLast(objs: seq<ObjData>, k: string)
    requires k in KeysOf(objs)
    ensures LastCommons(objs)[k] == CommonOf(LastWith(objs, k))
  {
    var init := objs[..|objs| - 1];
    if objs[|objs| - 1].key != k {
      LastCommonsAreLast(init, k);
    }
  }

  /**
   * A stored object keeps its mode, and its type index, when no occurrence of
   * its key in the list carries one.
   */
  lemma {:induction false} MergedKeepsAbsent(fields: map<string, Fields>, objs: seq<ObjData>, k: string)
    requires k in fields
    ensures k in Merged(fields, objs)
    ensures (forall i :: 0 <= i < |objs| && objs[i].key == k ==> objs[i].mode.None?) ==>
      Merged(fields, objs)[k].mode == fields[k].mode
    ensures (forall i :: 0 <= i < |objs| && objs[i].key == k ==> objs[i].typeIndex.None?) ==>
      Merged(fields, objs)[k].typeIndex == fields[k].typeIndex
  {
    if objs != [] {
      var init := objs[..|objs| - 1];
      MergedKeepsAbsent(fields, init, k);
      assert forall i :: 0 <= i < |init| ==> init[i] == objs[i];
    }
  }

  /** A key of the list ends with the common fields of its last occurrence. */
  lemma MergedCommon(fields: map<string, Fields>, objs: seq<ObjData>, k: string)
    requires k in KeysOf(objs)
    ensures k in Merged(fields, objs)
    ensures var f := Merged(fields, objs)[k];
      Common(f.objType, f.key, f.location, f.velocity, f.lastUpdateMs) == LastCommons(objs)[k]
  {
    MergedLast(fields, objs, k);
    LastCommonsAreLast(objs, k);
  }

  /** Object `i` of the list has a new key that no earlier object used, and a type the client cannot create. */
  predicate FailsAt(objs: seq<ObjData>, i: int, known: set<string>)
    requires 0 <= i < |objs|
  {
    objs[i].objType.OtherType? && objs[i].key !in known && objs[i].key !in KeysOf(objs[..i])
  }

  /** No object before position `n` fails. */
  predicate NoneFailsBefore(objs: seq<ObjData>, n: int, known: set<string>)
    requires n <= |objs|
  {
    forall j :: 0 <= j < n ==> !FailsAt(objs, j, known)
  }

  lemma NoneFailsStep(objs: seq<ObjData>, n: int, known: set<string>)
    requires 0 <= n < |objs| && NoneFailsBefore(objs, n, known) && !FailsAt(objs, n, known)
    ensures NoneFailsBefore(objs, n + 1, known)
  {
  }

  /** The list names the player's key. */
  predicate NamesPlayer(objs: seq<ObjData>, playerKey: Option<string>) {
    playerKey.Some? && playerKey.value in KeysOf(objs)
  }

  /**
   * `createObject(obj)`: a new object of the data's type with its key; any
   * other type throws.
   */
  method CreateObject(d: ObjData) returns (r: Result<GameObj>)
    ensures r.Ok? <==> !d.objType.OtherType?
    ensures r.Ok? ==> fresh(r.value) && r.value.key == d.key && r.value.objType == d.objType
    ensures r.Ok? ==> FieldsOf(r.value) == Created(d)
  {
    if d.objType == PlayerType {
      var o := new GameObj.Player(d.key, if d.name.Some? then d.name.value else "");
      r := Ok(o);
    } else if d.objType == FallingBlockType {
      var o := new GameObj.FallingBlock(d.key);
      r := Ok(o);
    } else if d.objType == MissileType {
      var o := new GameObj.Missile(d.key);
      r := Ok(o);
    } else {
      r := Err("unrecognized object type " + d.objType.tag);
    }
  }

  /**
   * `obj = state.objects[key] || (state.objects[key] = createObject(data))`:
   * the object stored under the key, or a new one stored under it; an unknown
   * type with a new key throws and nothing is stored.
   */
  method FindOrCreate(state: GameState, d: ObjData) returns (r: Result<GameObj>)
    requires Distinct(state.objects)
    modifies state`objects
    ensures Distinct(state.objects)
    ensures r.Err? <==> d.key !in old(state.objects) && d.objType.OtherType?
    ensures r.Err? ==> state.objects == old(state.objects)
    ensures r.Ok? ==> state.objects == old(state.objects)[d.key := r.value]
    ensures r.Ok? && d.key in old(state.objects) ==> r.value == old(state.objects[d.key])
    ensures r.Ok? && d.key !in old(state.objects) ==> fresh(r.value) && r.value.objType == d.objType
    ensures r.Ok? && d.key !in old(state.objects) ==> FieldsOf(r.value) == Created(d)
  {
    if d.key in state.objects {
      return Ok(state.objects[d.key]);
    }
    r := CreateObject(d);
    if r.Ok? {
      state.objects := state.objects[d.key := r.value];
    }
  }

  /**
   * One step of the `forEach` over the received objects: the object stored
   * under the key, or a new one, takes the data's fields and becomes the player
   * when its key is the player's.  No other stored object changes, so when
   * `fields` held the fields of the stored objects, afterwards they are
   * `MergedOne(fields, d)`.  A new key of an unknown type throws before anything
   * changes.
   */
  method MergeOne(state: GameState, d: ObjData, playerKey: Option<string>, ghost fields: map<string, Fields>)
    returns (r: Outcome)
    requires Distinct(state.objects) && Snapshot(state.objects, fields) && fields.Keys == state.objects.Keys
    modifies state`objects, state`player, if d.key in state.objects then {state.objects[d.key]} else {}
    ensures Distinct(state.objects)
    ensures r.Fail? <==> d.key !in old(state.objects) && d.objType.OtherType?
    ensures r.Fail? ==> state.objects == old(state.objects) && state.player == old(state.player)
    ensures r.Pass? ==>
      && state.objects.Keys == old(state.objects.Keys) + {d.key}
      && (d.key !in old(state.objects) ==> fresh(state.objects[d.key]))
      && Snapshot(state.objects, MergedOne(fields, d))
      && state.player == (if playerKey == Some(d.key) then state.objects[d.key] else old(state.player))
    ensures forall k :: k in old(state.objects) ==> state.objects[k] == old(state.objects[k])
    ensures forall o :: o in state.objects.Values ==> o in old(state.objects.Values) || fresh(o)
  {
    var found := StoreMerged(state, d, fields);
    if found.Err? {
      return Fail(found.message);
    }
    ghost var stored := state.objects;
    assert Snapshot(stored, MergedOne(fields, d)) && Distinct(stored);
    SetPlayer(state, playerKey, found.value);
    r := Pass;
  }

  /** `if (obj.key == msg.playerKey) state.player = obj`. */
  method SetPlayer(state: GameState, playerKey: Option<string>, obj: GameObj)
    modifies state`player
    ensures state.player == (if playerKey == Some(obj.key) then obj else old(state.player))
  {
    if playerKey == Some(obj.key) {
      state.player := obj;
    }
  }

  /**
   * `obj = state.objects[key] || (state.objects[key] = createObject(data))`
   * then `Object.assign(obj, data)`: the stored object, or a new one stored
   * under the key, is assigned the data.
   */
  method StoreMerged(state: GameState, d: ObjData, ghost fields: map<string, Fields>) returns (r: Result<GameObj>)
    requires Distinct(state.objects) && Snapshot(state.objects, fields) && fields.Keys == state.objects.Keys
    modifies state`objects, if d.key in state.objects then {state.objects[d.key]} else {}
    ensures Distinct(state.objects)
    ensures r.Err? <==> d.key !in old(state.objects) && d.objType.OtherType?
    ensures r.Err? ==> state.objects == old(state.objects)
    ensures r.Ok? ==> state.objects == old(state.objects)[d.key := r.value] && r.value.key == d.key
    ensures r.Ok? && d.key in old(state.objects) ==> r.value == old(state.objects[d.key])
    ensures r.Ok? && d.key !in old(state.objects) ==> fresh(r.value)
    ensures r.Ok? ==> Snapshot(state.objects, MergedOne(fields, d))
    ensures forall k :: k in old(state.objects) ==> state.objects[k] == old(state.objects[k])
    ensures forall o :: o in state.objects.Values ==> o in old(state.objects.Values) || fresh(o)
  {
    ghost var before := state.objects;
    r := FindOrCreate(state, d);
    if r.Err? {
      return;
    }
    assert forall k :: k in before ==> state.objects[k] == before[k];
    assert forall o :: o in state.objects.Values ==> o in before.Values || fresh(o);
    ghost var found := if d.key in fields then fields else fields[d.key := Created(d)];
    if d.key !in before {
      SnapshotAdd(before, state.objects, fields, d.key, Created(d));
    }
    MergedOneStored(fields, d);
    AssignStored(state.objects, r.value, d, found);
  }

  /** `MergedOne` is the stored or created fields, then `Object.assign`. */
  lemma MergedOneStored(fields: map<string, Fields>, d: ObjData)
    ensures var found := if d.key in fields then fields else fields[d.key := Created(d)];
      MergedOne(fields, d) == found[d.key := Assigned(found[d.key], d)]
  {
  }

  /** Storing a new object under a new key adds its fields to the snapshot. */
  lemma SnapshotAdd(objects: map<string, GameObj>, objects': map<string, GameObj>, fields: map<string, Fields>,
                    k: string, f: Fields)
    requires Snapshot(objects, fields) && k !in objects
    requires k in objects' && objects' == objects[k := objects'[k]] && FieldsOf(objects'[k]) == f
    ensures Snapshot(objects', fields[k := f])
  {
  }

  /** `Object.assign(obj, data)` on the object stored under the data's key: only its entry of the snapshot changes. */
  method AssignStored(objects: map<string, GameObj>, obj: GameObj, d: ObjData, ghost fields: map<string, Fields>)
    requires d.key in objects && objects[d.key] == obj && Distinct(objects) && Snapshot(objects, fields)
    modifies obj
    ensures Snapshot(objects, fields[d.key := Assigned(fields[d.key], d)])
  {
    obj.Assign(d);
    forall k | k in objects
      ensures FieldsOf(objects[k]) == fields[d.key := Assigned(fields[d.key], d)][k]
    {
      if k != d.key {
        assert objects[k] != obj;
      }
    }
  }

  /** Adding one object to the merged prefix. */
  lemma KeysOfStep(objs: seq<ObjData>, n: nat)
    requires n < |objs|
    ensures KeysOf(objs[..n + 1]) == KeysOf(objs[..n]) + {objs[n].key}
    ensures LastCommons(objs[..n + 1]) == LastCommons(objs[..n])[objs[n].key := CommonOf(objs[n])]
  {
    assert objs[..n + 1][..n] == objs[..n];
  }

  /** The player after merging `objs`: the object under the player's key once the list names it. */
  ghost predicate PlayerAfter(objects: map<string, GameObj>, current: GameObj, objs: seq<ObjData>,
                              playerKey: Option<string>, player: GameObj)
  {
    current == (if NamesPlayer(objs, playerKey) && playerKey.value in objects then objects[playerKey.value] else player)
  }

  /** Merging object `n` after the first `n`: the keys, the fields and the player move on by one. */
  lemma PrefixStep(objs: seq<ObjData>, n: nat, objects: map<string, GameObj>, objects': map<string, GameObj>,
                   current: GameObj, current': GameObj, playerKey: Option<string>, player: GameObj)
    requires n < |objs|
    requires PlayerAfter(objects, current, objs[..n], playerKey, player)
    requires objects.Keys >= KeysOf(objs[..n])
    requires objects'.Keys == objects.Keys + {objs[n].key}
    requires forall k :: k in objects ==> objects'[k] == objects[k]
    requires current' == (if playerKey == Some(objs[n].key) then objects'[objs[n].key] else current)
    ensures KeysOf(objs[..n + 1]) == KeysOf(objs[..n]) + {objs[n].key}
    ensures LastCommons(objs[..n + 1]) == LastCommons(objs[..n])[objs[n].key := CommonOf(objs[n])]
    ensures PlayerAfter(objects', current', objs[..n + 1], playerKey, player)
    ensures forall base :: Merged(base, objs[..n + 1]) == MergedOne(Merged(base, objs[..n]), objs[n])
  {
    KeysOfStep(objs, n);
    assert objs[..n + 1][..n] == objs[..n];
    assert NamesPlayer(objs[..n + 1], playerKey) <==> NamesPlayer(objs[..n], playerKey) || playerKey == Some(objs[n].key);
  }

  /**
   * The merge after the first `n` objects of the list: the keys are the known
   * ones and the list's, known keys keep their objects, the fields are those
   * of `base` with the first `n` objects merged in, and the player is set.
   */
  ghost predicate MergeState(objects: map<string, GameObj>, current: GameObj, fields: map<string, Fields>,
                             objs: seq<ObjData>, n: nat, known: map<string, GameObj>, base: map<string, Fields>,
                             playerKey: Option<string>, player: GameObj)
  {
    && n <= |objs|
    && Distinct(objects)
    && objects.Keys == known.Keys + KeysOf(objs[..n])
    && (forall k :: k in known ==> objects[k] == known[k])
    && fields == Merged(base, objs[..n]) && fields.Keys == objects.Keys
    && PlayerAfter(objects, current, objs[..n], playerKey, player)
  }

  /** The merge state, with the stored objects' fields in `fields` and no failure so far. */
  ghost predicate Merging(objects: map<string, GameObj>, current: GameObj, fields: map<string, Fields>,
                          objs: seq<ObjData>, n: nat, known: map<string, GameObj>, base: map<string, Fields>,
                          playerKey: Option<string>, player: GameObj)
    reads objects.Values
  {
    && MergeState(objects, current, fields, objs, n, known, base, playerKey, player)
    && Snapshot(objects, fields) && NoneFailsBefore(objs, n, known.Keys)
  }

  /** One merged object moves the merge state on by one, whatever the heap holds. */
  lemma MergeStep(objects: map<string, GameObj>, objects': map<string, GameObj>, current: GameObj, current': GameObj,
                  fields: map<string, Fields>, objs: seq<ObjData>, n: nat, known: map<string, GameObj>,
                  base: map<string, Fields>, playerKey: Option<string>, player: GameObj)
    requires n < |objs|
    requires MergeState(objects, current, fields, objs, n, known, base, playerKey, player)
    requires Distinct(objects')
    requires objects'.Keys == objects.Keys + {objs[n].key}
    requires forall k :: k in objects ==> objects'[k] == objects[k]
    requires current' == (if playerKey == Some(objs[n].key) then objects'[objs[n].key] else current)
    ensures MergeState(objects', current', MergedOne(fields, objs[n]), objs, n + 1, known, base, playerKey, player)
  {
    PrefixStep(objs, n, objects, objects', current, current', playerKey, player);
  }

  /** Merging object `n`: the merge state moves on by one, or the step fails exactly as `FailsAt` says. */
  method MergeNext(state: GameState, objs: seq<ObjData>, n: nat, playerKey: Option<string>,
                   ghost known: map<string, GameObj>, ghost base: map<string, Fields>, ghost player: GameObj,
                   ghost fields: map<string, Fields>) returns (r: Outcome, ghost fields': map<string, Fields>)
    requires n < |objs|
    requires Merging(state.objects, state.player, fields, objs, n, known, base, playerKey, player)
    modifies state`objects, state`player, if objs[n].key in state.objects then {state.objects[objs[n].key]} else {}
    ensures r.Fail? <==> FailsAt(objs, n, known.Keys)
    ensures r.Fail? ==> state.objects == old(state.objects)
    ensures r.Pass? ==> Merging(state.objects, state.player, fields', objs, n + 1, known, base, playerKey, player)
    ensures forall o :: o in state.objects.Values ==> o in old(state.objects.Values) || fresh(o)
  {
    ghost var objects, current := state.objects, state.player;
    fields' := MergedOne(fields, objs[n]);
    r := MergeOne(state, objs[n], playerKey, fields);
    if r.Pass? {
      MergeStep(objects, state.objects, current, state.player, fields, objs, n, known, base, playerKey, player);
      NoneFailsStep(objs, n, known.Keys);
    }
  }

  /** Before the first object, the merge state is the stored objects themselves. */
  lemma MergeStart(objects: map<string, GameObj>, current: GameObj, objs: seq<ObjData>,
                   base: map<string, Fields>, playerKey: Option<string>)
    requires Distinct(objects) && base.Keys == objects.Keys
    ensures MergeState(objects, current, base, objs, 0, objects, base, playerKey, current)
  {
    assert objs[..0] == [];
  }

  /**
   * The `forEach` over the received objects: each is merged in order, so that
   * the fields by key end as `Merged` says; objects already stored keep their
   * identity.  It throws at the first new key of a type the client
   * cannot create.
   */
  method MergeAll(state: GameState, objs: seq<ObjData>, playerKey: Option<string>)
    returns (r: Outcome, ghost base: map<string, Fields>, ghost fields: map<string, Fields>)
    requires Distinct(state.objects)
    modifies state`objects, state`player, state.objects.Values
    ensures r.Fail? <==> exists i :: 0 <= i < |objs| && FailsAt(objs, i, old(state.objects.Keys))
    ensures old(state.objects.Keys) <= state.objects.Keys
    ensures base == old(FieldMap(state.objects))
    ensures r.Pass? ==>
      MergeState(state.objects, state.player, fields, objs, |objs|, old(state.objects), base, playerKey, old(state.player))
      && Snapshot(state.objects, fields)
  {
    ghost var known := state.objects;
    ghost var player := state.player;
    base := FieldMap(state.objects);
    fields := base;
    MergeStart(known, player, objs, base, playerKey);
    var i := 0;
    while i < |objs|
      invariant 0 <= i <= |objs|
      invariant Merging(state.objects, state.player, fields, objs, i, known, base, playerKey, player)
      invariant forall o :: o in state.objects.Values ==> o in known.Values || fresh(o)
    {
      r, fields := MergeNext(state, objs, i, playerKey, known, base, player, fields);
      if r.Fail? {
        return;
      }
      i := i + 1;
    }
    r := Pass;
  }

  /** The deletion `forEach`: every key outside `keys` is removed; the rest keep their objects. */
  method DropMissing(state: GameState, keys: set<string>)
    modifies state`objects
    ensures forall k :: k in state.objects <==> k in old(state.objects) && k in keys
    ensures forall k :: k in state.objects ==> state.objects[k] == old(state.objects[k])
  {
    var rest := state.objects.Keys;
    while rest != {}
      invariant rest <= old(state.objects.Keys)
      invariant forall k :: k in state.objects <==> k in old(state.objects) && (k in keys || k in rest)
      invariant forall k :: k in state.objects ==> state.objects[k] == old(state.objects[k])
      decreases rest
    {
      var k :| k in rest;
      if k !in keys {
        state.objects := state.objects - {k};
      }
      rest := rest - {k};
    }
  }

  /**
   * `handleObjects(msg)`: every object of the message is merged, in order, into
   * the object stored under its key (created when new), so that each key ends
   * with the fields `Merged` gives (the common fields of its last occurrence,
   * and every other field of the last occurrence that carries it) and existing
   * objects keep their identity; the player becomes the object with the
   * message's player key.  Then every key the message does not name is deleted.  The handler
   * throws exactly when an object with a new key has a type the client cannot
   * create, and then nothing is deleted.
   */
  method HandleObjects(state: GameState, objs: seq<ObjData>, playerKey: Option<string>) returns (r: Outcome)
    requires Distinct(state.objects)
    modifies state`objects, state`player, state.objects.Values
    ensures r.Fail? <==> exists i :: 0 <= i < |objs| && FailsAt(objs, i, old(state.objects.Keys))
    ensures r.Fail? ==> old(state.objects.Keys) <= state.objects.Keys
    ensures r.Pass? ==> Distinct(state.objects)
    ensures r.Pass? ==> state.objects.Keys == KeysOf(objs)
    ensures r.Pass? ==> forall k :: k in state.objects ==> CommonOfObj(state.objects[k]) == LastCommons(objs)[k]
    ensures r.Pass? ==> forall k :: k in state.objects ==>
      var merged := Merged(old(FieldMap(state.objects)), objs); k in merged && FieldsOf(state.objects[k]) == merged[k]
    ensures r.Pass? ==> forall k :: k in state.objects && k in old(state.objects) ==> state.objects[k] == old(state.objects[k])
    ensures r.Pass? ==> state.player == (if NamesPlayer(objs, playerKey) then state.objects[playerKey.value] else old(state.player))
  {
    ghost var base, fields;
    r, base, fields := MergeAll(state, objs, playerKey);
    if r.Fail? {
      return;
    }
    assert objs[..|objs|] == objs;
    var keys := KeysOf(objs);
    DropMissing(state, keys);
    forall k | k in state.objects
      ensures CommonOfObj(state.objects[k]) == LastCommons(objs)[k]
    {
      MergedCommon(base, objs, k);
    }
  }

  // The other server messages

  /** The `binary` handler: the received chunks become the pending chunk updates. */
  method HandleBinary(state: GameState, chunks: seq<Chunk>)
    modifies state`pendingChunkUpdates
    ensures state.pendingChunkUpdates == chunks
  {
    state.pendingChunkUpdates := chunks;
  }

  /** `handleConfig(msg)`: the server's configuration is stored. */
  method HandleConfig(state: GameState, config: string)
    modifies state`config
    ensures state.config == Some(config)
  {
    state.config := Some(config);
  }

  /** Whether a status change starts the game: only the move from LOBBY to ACTIVE does. */
  predicate Starts(before: GameStatus, after: GameStatus) {
    before == Lobby && after == Active
  }

  /**
   * The `status` case: the status and player counts are copied, the lobby shows
   * the count, and the move from LOBBY to ACTIVE starts the game at `now`.  Any
   * other status leaves the splash, the player's name and the start time alone,
   * so a second ACTIVE status does not start the game again.
   */
  method HandleStatus(state: GameState, splash: Splash.SplashScreen, status: GameStatus,
                      alive: int, total: int, now: real)
    requires splash.state == state
    modifies state`gameStatus, state`alivePlayers, state`totalPlayers, state`startTime, state.player`name
    modifies splash`lobbyPlayers, splash`splashRemoved, splash`canvasClickArmed
    ensures state.gameStatus == status && state.alivePlayers == alive && state.totalPlayers == total
    ensures splash.lobbyPlayers == Some((total, BazookaGame.MAX_PLAYERS as int))
    ensures Starts(old(state.gameStatus), status) ==>
      splash.splashRemoved && splash.canvasClickArmed && state.player.name == splash.inputName && state.startTime == now
    ensures !Starts(old(state.gameStatus), status) ==>
      && splash.splashRemoved == old(splash.splashRemoved) && splash.canvasClickArmed == old(splash.canvasClickArmed)
      && state.player.name == old(state.player.name) && state.startTime == old(state.startTime)
  {
    var shouldStart := false;
    if state.gameStatus == Lobby && status == Active {
      shouldStart := true;
    }
    state.gameStatus := status;
    state.alivePlayers := alive;
    state.totalPlayers := total;
    splash.UpdatePlayers(state.totalPlayers, BazookaGame.MAX_PLAYERS as int);
    if shouldStart {
      splash.StartGame(now);
    }
  }

  /** Once the game is active, no status message starts it again. */
  lemma StartsOnce(before: GameStatus, after: GameStatus)
    requires Starts(before, after)
    ensures forall s :: !Starts(after, s)
  {
  }

  /** The `close` handler: the connection is reported as lost, unless an error came first. */
  method HandleClose(splash: Splash.SplashScreen)
    modifies splash.state`error, splash`splashRemoved, splash`errorShown, splash`errorText
    modifies splash`fullscreen, splash`pointerLock
    ensures old(splash.state.error).None? ==> splash.state.error == Some("connection lost") && splash.errorShown
    ensures old(splash.state.error).Some? ==> splash.state.error == old(splash.state.error) && unchanged(splash)
  {
    splash.ShowError("connection lost");
  }

  /**
   * The `json` handler at time `now`: `handshake` and unknown types change
   * nothing, `config` stores the configuration, `objects` runs `handleObjects`,
   * `error` shows the server's message (only the first error counts), and
   * `status` runs the status case.
   */
  method HandleJson(state: GameState, splash: Splash.SplashScreen, msg: ServerMsg, now: real) returns (r: Outcome)
    requires splash.state == state && Distinct(state.objects)
    modifies state`config, state`objects, state`player, state.objects.Values
    modifies state`gameStatus, state`alivePlayers, state`totalPlayers, state`startTime, state.player`name, state`error
    modifies splash`lobbyPlayers, splash`splashRemoved, splash`canvasClickArmed, splash`errorShown, splash`errorText
    modifies splash`fullscreen, splash`pointerLock
    ensures !msg.ObjectsMsg? ==> r.Pass? && state.objects == old(state.objects) && state.player == old(state.player)
    ensures msg.HandshakeMsg? || msg.UnknownMsg? ==> unchanged(state) && unchanged(state.player) && unchanged(splash)
    ensures state.config == if msg.ConfigMsg? then Some(msg.config) else old(state.config)
    ensures msg.ObjectsMsg? ==>
      (r.Fail? <==> exists i :: 0 <= i < |msg.objects| && FailsAt(msg.objects, i, old(state.objects.Keys)))
    ensures msg.ObjectsMsg? && r.Pass? ==> state.objects.Keys == KeysOf(msg.objects)
    ensures state.error == if msg.ErrorMsg? && old(state.error).None? then Some(msg.message) else old(state.error)
    ensures msg.StatusMsg? ==>
      && state.gameStatus == msg.gameStatus && state.alivePlayers == msg.alivePlayers
      && state.totalPlayers == msg.totalPlayers
      && (Starts(old(state.gameStatus), msg.gameStatus) ==> splash.splashRemoved && state.startTime == now)
      && (!Starts(old(state.gameStatus), msg.gameStatus) ==> state.startTime == old(state.startTime))
    ensures !msg.StatusMsg? ==> state.gameStatus == old(state.gameStatus) && state.startTime == old(state.startTime)
  {
    r := Pass;
    match msg {
      case HandshakeMsg => {
      }
      case ConfigMsg(config) => {
        HandleConfig(state, config);
      }
      case ObjectsMsg(objs, playerKey) => {
        r := HandleObjects(state, objs, playerKey);
      }
      case ErrorMsg(message) => {
        splash.ShowError(message);
      }
      case StatusMsg(status, alive, total) => {
        HandleStatus(state, splash, status, alive, total, now);
      }
      case UnknownMsg(_) => {
      }
    }
  }

  // The tick

  /** Whether a tick sends an update: the socket is open and the player has a key. */
  predicate Sends(ready: bool, playerKey: string) {
    ready && playerKey != ""
  }

  /**
   * The controls part of `tick()`: unless paused, the controls act and a block
   * command they return is queued after any `fire-bazooka` they queued.
   */
  method TickControls(state: GameState, shell: Shell)
    requires state.world.Valid()
    modifies state`pendingCommands, state`cameraMode, state`showHUD, state.player`mode
    modifies state.world, state.world.chunkTable.Values
    ensures state.world.Valid()
    ensures state.paused ==>
      && state.pendingCommands == old(state.pendingCommands) && unchanged(state.player)
      && state.cameraMode == old(state.cameraMode) && state.showHUD == old(state.showHUD)
      && unchanged(state.world) && unchanged(state.world.chunkTable.Values)
    ensures !state.paused ==>
      var fire := if PlayerControls.KeyActionOf(shell) == PlayerControls.FireBazooka then [FireBazookaCmd] else [];
      && (!shell.WasDown("mouse-left") || state.lookAtBlock.None? ==>
            state.pendingCommands == old(state.pendingCommands) + fire)
      && (shell.WasDown("mouse-left") && state.lookAtBlock.Some? ==>
            exists c :: state.pendingCommands == old(state.pendingCommands) + fire + [c]
                     && c.SetVoxCmd? && c.At() == state.lookAtBlock.value.location
                     && (c.v == PlayerControls.WATER <==> old(PlayerControls.NearWater(state.world, c.At())))
                     && (c.v == PlayerControls.WATER || c.v == PlayerControls.AIR)
                     && state.world.GetVox(c.At()) == c.v
                     && forall q :: OriginOf(q) != OriginOf(c.At()) ==> state.world.GetVox(q) == old(state.world.GetVox(q)))
      && (!shell.WasDown("mouse-left") || state.lookAtBlock.None? ==>
            unchanged(state.world) && unchanged(state.world.chunkTable.Values))
  {
    if !state.paused {
      var command := PlayerControls.Interact(state, shell);
      if command.Some? {
        state.pendingCommands := state.pendingCommands + [command.value];
      }
    }
  }

  /**
   * The client/server part of `tick()`: when the socket is open and the player
   * has a key, the movement flags are refreshed if they changed, one update
   * carrying the player and the whole queue is sent, and the queue is emptied;
   * otherwise nothing changes.
   */
  method SendUpdate(state: GameState, shell: Shell)
    modifies state`pendingCommands, state.player`input, state.socket`sent
    ensures Sends(state.socket.ready, state.player.key) ==>
      && state.player.input == (var n := PlayerControls.Navigate(shell, old(state.player.input));
                                if n.Some? then n else old(state.player.input))
      && state.socket.sent == old(state.socket.sent) + [UpdateMsg(DataOf(state.player), old(state.pendingCommands))]
      && state.pendingCommands == []
    ensures !Sends(state.socket.ready, state.player.key) ==>
      && state.player.input == old(state.player.input)
      && state.socket.sent == old(state.socket.sent)
      && state.pendingCommands == old(state.pendingCommands)
  {
    if state.socket.ready && state.player.key != "" {
      var input := PlayerControls.Navigate(shell, state.player.input);
      if input.Some? {
        state.player.input := input;
      }
      var sent := state.socket.Send(UpdateMsg(DataOf(state.player), state.pendingCommands));
      state.pendingCommands := [];
    }
  }

  /**
   * `tick()` with the block the picker found: nothing once an error was shown.
   * Otherwise the pick is stored in the player's target, the controls act
   * (`TickControls`) and the update is sent (`SendUpdate`); `queued` is the
   * command queue as it stands before the send.
   */
  method Tick(state: GameState, shell: Shell, picked: Option<LookAt>) returns (ghost queued: seq<Command>)
    requires state.world.Valid()
    modifies state`playerLookAt, state`pendingCommands, state`cameraMode, state`showHUD
    modifies state.player`mode, state.player`input, state.socket`sent
    modifies state.world, state.world.chunkTable.Values
    ensures state.world.Valid()
    ensures old(state.error).Some? ==>
      && unchanged(state) && unchanged(state.player) && unchanged(state.socket)
      && unchanged(state.world) && unchanged(state.world.chunkTable.Values)
    ensures old(state.error).None? ==> state.playerLookAt == picked
    ensures old(state.error).None? && state.paused ==> queued == old(state.pendingCommands)
    ensures old(state.error).None? && !state.paused ==>
      var fire := if PlayerControls.KeyActionOf(shell) == PlayerControls.FireBazooka then [FireBazookaCmd] else [];
      && (!shell.WasDown("mouse-left") || state.lookAtBlock.None? ==> queued == old(state.pendingCommands) + fire)
      && (shell.WasDown("mouse-left") && state.lookAtBlock.Some? ==>
            exists c :: queued == old(state.pendingCommands) + fire + [c]
                     && c.SetVoxCmd? && c.At() == state.lookAtBlock.value.location)
    ensures old(state.error).None? && Sends(state.socket.ready, state.player.key) ==>
      && state.player.input == (var n := PlayerControls.Navigate(shell, old(state.player.input));
                                if n.Some? then n else old(state.player.input))
      && state.socket.sent == old(state.socket.sent) + [UpdateMsg(DataOf(state.player), queued)]
      && state.pendingCommands == []
    ensures old(state.error).None? && !Sends(state.socket.ready, state.player.key) ==>
      && state.player.input == old(state.player.input)
      && state.socket.sent == old(state.socket.sent)
      && state.pendingCommands == queued
  {
    queued := state.pendingCommands;
    if state.error.Some? {
      return;
    }
    state.playerLookAt := picked;
    TickControls(state, shell);
    queued := state.pendingCommands;
    SendUpdate(state, shell);
  }

  // Chunk updates

  /** The chunk table after replacing the chunks in order. */
  function ReplaceAll(table: map<Coord, Chunk>, cs: seq<Chunk>): map<Coord, Chunk>
  {
    if cs == [] then table else ReplaceAll(table, cs[..|cs| - 1])[cs[|cs| - 1].Key() := cs[|cs| - 1]]
  }

  /**
   * After the replacements, an origin holds the last chunk received for it, and
   * an origin no received chunk names keeps the chunk it had.
   */
  lemma {:induction false} ReplaceAllLast(table: map<Coord, Chunk>, cs: seq<Chunk>)
    ensures forall k :: k in ReplaceAll(table, cs) <==> k in table || exists i :: 0 <= i < |cs| && cs[i].Key() == k
    ensures forall k :: k in table && (forall i :: 0 <= i < |cs| ==> cs[i].Key() != k) ==> ReplaceAll(table, cs)[k] == table[k]
    ensures forall i :: 0 <= i < |cs| && (forall j :: i < j < |cs| ==> cs[j].Key() != cs[i].Key()) ==>
      ReplaceAll(table, cs)[cs[i].Key()] == cs[i]
  {
    if cs != [] {
      var init := cs[..|cs| - 1];
      ReplaceAllLast(table, init);
      assert forall i :: 0 <= i < |init| ==> init[i] == cs[i];
    }
  }

  /**
   * `applyChunkUpdates()`: every pending chunk replaces the chunk at its origin,
   * in order, and the pending list is emptied.
   */
  method ApplyChunkUpdates(state: GameState)
    requires state.world.Valid()
    modifies state`pendingChunkUpdates, state.world, state.world.chunks, state.pendingChunkUpdates
    ensures state.world.Valid()
    ensures state.world.chunkTable == ReplaceAll(old(state.world.chunkTable), old(state.pendingChunkUpdates))
    ensures state.pendingChunkUpdates == []
  {
    var chunks := state.pendingChunkUpdates;
    if |chunks| > 0 {
      var i := 0;
      while i < |chunks|
        invariant 0 <= i <= |chunks|
        invariant state.world.Valid()
        invariant state.world.chunkTable == ReplaceAll(old(state.world.chunkTable), chunks[..i])
        invariant forall c :: c in state.world.chunks ==> c in old(state.world.chunks) || c in chunks
      {
        state.world.ReplaceChunk(chunks[i]);
        assert chunks[..i + 1][..i] == chunks[..i];
        i := i + 1;
      }
      assert chunks[..|chunks|] == chunks;
      state.pendingChunkUpdates := [];
    }
  }
}
