/**
 * The resource tracker: a registry of live GL objects built by wrapping the
 * create/delete entry points. Every kind shares one id counter; the handle
 * to id association plays the role of the `WeakMap`, and per-kind counts are
 * kept alongside the record list.
 */
module Resources {
  import opened Wrappers
  import Text

  /** An opaque GL object. */
  type Handle = nat

  datatype Kind = Texture | Buffer | Shader | Program | Framebuffer | Renderbuffer | Vao

  function KindName(k: Kind): string {
    match k
    case Texture => "texture"
    case Buffer => "buffer"
    case Shader => "shader"
    case Program => "program"
    case Framebuffer => "framebuffer"
    case Renderbuffer => "renderbuffer"
    case Vao => "vao"
  }

  /** `type.slice(0, 3)`: three letters, different for every kind. */
  function IdPrefix(k: Kind): (p: string)
    ensures |p| == 3 && p == KindName(k)[..3]
  {
    match k
    case Texture => "tex"
    case Buffer => "buf"
    case Shader => "sha"
    case Program => "pro"
    case Framebuffer => "fra"
    case Renderbuffer => "ren"
    case Vao => "vao"
  }

  /** `${type.slice(0,3)}_${n}`. */
  function ResourceId(k: Kind, n: nat): string {
    IdPrefix(k) + "_" + Text.NatToString(n)
  }

  /** Distinct kinds or distinct counter values always give distinct ids. */
  lemma ResourceIdInjective(k1: Kind, n1: nat, k2: Kind, n2: nat)
    requires ResourceId(k1, n1) == ResourceId(k2, n2)
    ensures k1 == k2 && n1 == n2
  {
    var a, b := ResourceId(k1, n1), ResourceId(k2, n2);
    assert IdPrefix(k1) == a[..3] == b[..3] == IdPrefix(k2);
    assert Text.NatToString(n1) == a[4..] == b[4..] == Text.NatToString(n2);
    Text.RadixRenderingInjective(n1, n2, 10);
  }

  /** What `meta` records: the creation stack for textures and buffers, the stage for shaders. */
  datatype Meta = NoMeta | CreationStack | ShaderStage(shaderType: int)

  /** A tracked object; `estBytes` 0 stands for an absent estimate (both are falsy). */
  datatype Resource = Resource(id: string, kind: Kind, estBytes: int, createdAt: real, lastUsed: real, meta: Meta)

  function MetaFor(k: Kind, shaderType: int): Meta {
    match k
    case Texture => CreationStack
    case Buffer => CreationStack
    case Shader => ShaderStage(shaderType)
    case _ => NoMeta
  }

  /** The number of records of kind `k`. */
  function CountKind(list: seq<Resource>, k: Kind): nat {
    if list == [] then 0
    else CountKind(list[..|list| - 1], k) + (if list[|list| - 1].kind == k then 1 else 0)
  }

  lemma {:induction false} CountKindBound(list: seq<Resource>, k: Kind)
    ensures CountKind(list, k) <= |list|
    decreases |list|
  {
    if list != [] {
      CountKindBound(list[..|list| - 1], k);
    }
  }

  /** Removing the record at `i` lowers the count of its kind by one and leaves every other count alone. */
  lemma {:induction false} CountKindRemove(list: seq<Resource>, i: nat, k: Kind)
    requires i < |list|
    ensures CountKind(list[..i] + list[i + 1..], k) ==
      CountKind(list, k) - (if list[i].kind == k then 1 else 0)
    decreases |list|
  {
    var rest := list[..i] + list[i + 1..];
    var init, last := list[..|list| - 1], list[|list| - 1];
    assert CountKind(list, k) == CountKind(init, k) + (if last.kind == k then 1 else 0);
    if i == |list| - 1 {
      assert rest == init;
    } else {
      assert init[..i] + init[i + 1..] == rest[..|rest| - 1];
      assert rest[|rest| - 1] == last;
      assert CountKind(rest, k) == CountKind(rest[..|rest| - 1], k) + (if last.kind == k then 1 else 0);
      CountKindRemove(init, i, k);
    }
  }

  /** `list.findIndex(r => r.id === id)`. */
  function IndexOfId(list: seq<Resource>, id: string): (i: int)
    ensures -1 <= i < |list|
    ensures i >= 0 ==> list[i].id == id && forall j :: 0 <= j < i ==> list[j].id != id
    ensures i < 0 ==> forall j :: 0 <= j < |list| ==> list[j].id != id
  {
    if list == [] then -1
    else if list[0].id == id then 0
    else
      var i := IndexOfId(list[1..], id);
      if i < 0 then -1 else i + 1
  }

  function Ids(list: seq<Resource>): set<string> {
    set i | 0 <= i < |list| :: list[i].id
  }

  /** The VAO wrappers are reached: they exist (WebGL2, or the OES extension in WebGL1) and the call uses the core name. */
  predicate VaoTracked(isGL2: bool, hasOesVao: bool, coreName: bool) {
    (isGL2 || hasOesVao) && coreName
  }

  /** The tracker's observable state: the record list, the handle map, per-kind counts, the byte total and the id counter. */
  datatype TrackerState = TrackerState(
    list: seq<Resource>,
    idMap: map<Handle, string>,
    byKind: map<Kind, int>,
    estBytes: int,
    nextId: nat)

  /** `byKind[k]`, read as 0 for a kind without an entry. */
  function KindCount(byKind: map<Kind, int>, k: Kind): int {
    if k in byKind then byKind[k] else 0
  }

  /** The state `makeResourceTracker` starts from. */
  function InitialState(): (t: TrackerState)
    ensures t.list == [] && t.idMap == map[] && t.estBytes == 0 && t.nextId == 1
  {
    TrackerState([], map[],
      map[Texture := 0, Buffer := 0, Shader := 0, Program := 0, Framebuffer := 0, Renderbuffer := 0, Vao := 0],
      0, 1)
  }

  /** `add(obj, type)`: a new record under the next id, the handle mapped to it, its kind counted. */
  function AddSpec(t: TrackerState, k: Kind, h: Handle, meta: Meta, t0: real, t1: real): TrackerState {
    var id := ResourceId(k, t.nextId);
    t.(list := t.list + [Resource(id, k, 0, t0, t1, meta)],
       idMap := t.idMap[h := id],
       byKind := t.byKind[k := KindCount(t.byKind, k) + 1],
       nextId := t.nextId + 1)
  }

  /**
   * `del(obj, type)`: nothing for an unmapped handle; otherwise the record
   * `findIndex` finds is spliced out, its byte estimate (when non-zero)
   * subtracted and the deleter's kind decremented, floored at 0; the mapping
   * is dropped in either case.
   */
  function DelSpec(t: TrackerState, k: Kind, h: Handle): TrackerState {
    if h !in t.idMap then t
    else
      var i := IndexOfId(t.list, t.idMap[h]);
      var removed :=
        if i < 0 then t
        else
          t.(list := t.list[..i] + t.list[i + 1..],
             estBytes := if t.list[i].estBytes != 0 then t.estBytes - t.list[i].estBytes else t.estBytes,
             byKind := t.byKind[k := Max0(KindCount(t.byKind, k) - 1)]);
      removed.(idMap := t.idMap - {h})
  }

  /** The consistency the tracker keeps: every kind has a count and the registry is well formed. */
  ghost predicate Inv(t: TrackerState, serials: seq<nat>) {
    (forall k: Kind :: k in t.byKind) && Registry(t.list, serials, t.idMap, t.nextId)
  }

  /** The serials after `DelSpec`: the same index spliced out. */
  ghost function DelSerials(t: TrackerState, serials: seq<nat>, h: Handle): seq<nat> {
    if h !in t.idMap then serials
    else
      var i := IndexOfId(t.list, t.idMap[h]);
      if 0 <= i < |serials| then serials[..i] + serials[i + 1..] else serials
  }

  /** The initial state is consistent, with every per-kind count at 0. */
  lemma InitialInv()
    ensures Inv(InitialState(), []) && Agree(InitialState().byKind, InitialState().list)
    ensures forall k: Kind :: KindCount(InitialState().byKind, k) == 0
  {
    var t := InitialState();
    forall k: Kind ensures k in t.byKind && t.byKind[k] == 0 == CountKind(t.list, k) {
      match k
      case Texture =>
      case Buffer =>
      case Shader =>
      case Program =>
      case Framebuffer =>
      case Renderbuffer =>
      case Vao =>
    }
  }

  /** The record `h` maps to exists and has kind `k`. */
  predicate RecordKindIs(t: TrackerState, h: Handle, k: Kind) {
    h in t.idMap &&
    var i := IndexOfId(t.list, t.idMap[h]);
    0 <= i && t.list[i].kind == k
  }

  /** Registering a fresh handle keeps the invariant and the per-kind counts. */
  lemma AddKeepsInv(t: TrackerState, serials: seq<nat>, k: Kind, h: Handle, meta: Meta, t0: real, t1: real)
    requires Inv(t, serials) && h !in t.idMap
    ensures Inv(AddSpec(t, k, h, meta, t0, t1), serials + [t.nextId])
    ensures Agree(t.byKind, t.list) ==> Agree(AddSpec(t, k, h, meta, t0, t1).byKind, AddSpec(t, k, h, meta, t0, t1).list)
  {
    var r := Resource(ResourceId(k, t.nextId), k, 0, t0, t1, meta);
    RegistryAdd(t.list, serials, t.idMap, t.nextId, h, r);
    if Agree(t.byKind, t.list) {
      AgreeAdd(t.byKind, t.list, r);
    }
  }

  /**
   * Deleting keeps the invariant, and a registered handle loses exactly its
   * record: the list shrinks by one, only that id disappears and the handle
   * is no longer mapped.
   */
  lemma DelKeepsInv(t: TrackerState, serials: seq<nat>, k: Kind, h: Handle)
    requires Inv(t, serials)
    ensures Inv(DelSpec(t, k, h), DelSerials(t, serials, h))
    ensures h in t.idMap ==>
      |DelSpec(t, k, h).list| == |t.list| - 1 &&
      Ids(DelSpec(t, k, h).list) == Ids(t.list) - {t.idMap[h]} &&
      h !in DelSpec(t, k, h).idMap
  {
    if h in t.idMap {
      var i := IndexOfId(t.list, t.idMap[h]);
      RegistryRemove(t.list, serials, t.idMap, t.nextId, h);
      var t' := DelSpec(t, k, h);
      assert t'.list == t.list[..i] + t.list[i + 1..] && t'.idMap == t.idMap - {h} && t'.nextId == t.nextId;
      assert DelSerials(t, serials, h) == serials[..i] + serials[i + 1..];
    }
  }

  /** The per-kind counts stay right across a delete whose kind is the deleted record's kind. */
  lemma DelAgrees(t: TrackerState, k: Kind, h: Handle)
    requires Agree(t.byKind, t.list)
    requires h in t.idMap ==> RecordKindIs(t, h, k)
    ensures Agree(DelSpec(t, k, h).byKind, DelSpec(t, k, h).list)
  {
    if h in t.idMap {
      var i := IndexOfId(t.list, t.idMap[h]);
      assert 0 <= i && t.list[i].kind == k;
      AgreeRemove(t.byKind, t.list, i);
      assert KindCount(t.byKind, k) == t.byKind[k];
      assert DelSpec(t, k, h).byKind == t.byKind[k := Max0(t.byKind[k] - 1)];
      assert DelSpec(t, k, h).list == t.list[..i] + t.list[i + 1..];
    }
  }

  /** Creating an object and then deleting it leaves the tracker as it was, except that the id counter has moved on. */
  lemma AddThenDel(t: TrackerState, serials: seq<nat>, k: Kind, h: Handle, meta: Meta, t0: real, t1: real)
    requires Inv(t, serials) && h !in t.idMap && KindCount(t.byKind, k) >= 0
    ensures DelSpec(AddSpec(t, k, h, meta, t0, t1), k, h) == t.(nextId := t.nextId + 1)
  {
    var r := AddSpec(t, k, h, meta, t0, t1).list[|t.list|];
    SerialsFresh(t.list, serials, t.nextId, r);
    assert k in t.byKind;
    UndoAdd(t, k, h, meta, t0, t1);
  }

  lemma UndoAdd(t: TrackerState, k: Kind, h: Handle, meta: Meta, t0: real, t1: real)
    requires h !in t.idMap && k in t.byKind && t.byKind[k] >= 0 && ResourceId(k, t.nextId) !in Ids(t.list)
    ensures DelSpec(AddSpec(t, k, h, meta, t0, t1), k, h) == t.(nextId := t.nextId + 1)
  {
    var a := AddSpec(t, k, h, meta, t0, t1);
    IndexOfLast(t.list, a.list[|t.list|]);
    var i := |t.list|;
    assert a.list[..i] + a.list[i + 1..] == t.list;
    assert a.idMap - {h} == t.idMap;
    assert a.byKind[k := Max0(KindCount(a.byKind, k) - 1)] == t.byKind;
  }

  /** A record whose id is new is found where it was appended. */
  lemma IndexOfLast(list: seq<Resource>, r: Resource)
    requires r.id !in Ids(list)
    ensures IndexOfId(list + [r], r.id) == |list|
  {
    var all := list + [r];
    assert all[|list|].id == r.id;
    forall j | 0 <= j < |list| ensures all[j].id != r.id {
      assert all[j] == list[j] && list[j].id in Ids(list);
    }
  }

  /** The tracker object: the closure state of `makeResourceTracker` plus its create/delete wrappers. */
  class ResourceTracker {
    var list: seq<Resource>
    var idMap: map<Handle, string>
    var byKind: map<Kind, int>
    var estBytes: int
    var nextId: nat
    /** The `estBytes` property of the returned object: a copy taken when the tracker was made. */
    const exposedEstBytes: int
    const isGL2: bool
    const hasOesVao: bool
    /** The counter value each record's id was made from, in list order. */
    ghost var serials: seq<nat>

    function State(): TrackerState
      reads this
    {
      TrackerState(list, idMap, byKind, estBytes, nextId)
    }

    ghost predicate Valid()
      reads this
    {
      Inv(State(), serials)
    }

    /** Every per-kind count equals the number of records of that kind. */
    ghost predicate CountsAgree()
      reads this
    {
      Agree(byKind, list)
    }

    /** `makeResourceTracker(gl, opts)`: the object it returns exposes a byte total of 0. */
    constructor (isGL2: bool, hasOesVao: bool)
      ensures Valid() && CountsAgree()
      ensures State() == InitialState()
      ensures exposedEstBytes == 0
      ensures this.isGL2 == isGL2 && this.hasOesVao == hasOesVao
    {
      var t := InitialState();
      list, idMap, byKind, estBytes, nextId := t.list, t.idMap, t.byKind, t.estBytes, t.nextId;
      exposedEstBytes := t.estBytes;
      this.isGL2 := isGL2;
      this.hasOesVao := hasOesVao;
      serials := [];
      InitialInv();
    }

    /** `add(obj, type, label, meta)`; `t0` and `t1` are the two clock readings. */
    method Add(k: Kind, h: Handle, meta: Meta, t0: real, t1: real)
      requires Valid() && h !in idMap
      modifies this
      ensures Valid() && (old(CountsAgree()) ==> CountsAgree())
      ensures State() == AddSpec(old(State()), k, h, meta, t0, t1)
    {
      ghost var t, s := State(), serials;
      var id := ResourceId(k, nextId);
      idMap := idMap[h := id];
      byKind := byKind[k := KindCount(byKind, k) + 1];
      list := list + [Resource(id, k, 0, t0, t1, meta)];
      serials := serials + [nextId];
      nextId := nextId + 1;
      assert State() == AddSpec(t, k, h, meta, t0, t1);
      AddKeepsInv(t, s, k, h, meta, t0, t1);
    }

    /** `del(obj, type)`. */
    method Del(k: Kind, h: Handle)
      requires Valid()
      modifies this
      ensures Valid()
      ensures State() == DelSpec(old(State()), k, h)
      ensures old(CountsAgree()) && (h in old(idMap) ==> RecordKindIs(old(State()), h, k)) ==> CountsAgree()
    {
      ghost var t, s := State(), serials;
      ghost var t' := DelSpec(t, k, h);
      if h in idMap {
        var idx := IndexOfId(list, idMap[h]);
        if idx >= 0 {
          RemoveAt(idx, k);
        }
        idMap := idMap - {h};
        assert list == t'.list && byKind == t'.byKind && estBytes == t'.estBytes && idMap == t'.idMap;
      }
      serials := DelSerials(t, s, h);
      assert State() == t';
      DelKeepsInv(t, s, k, h);
      if Agree(t.byKind, t.list) && (h in t.idMap ==> RecordKindIs(t, h, k)) {
        DelAgrees(t, k, h);
      }
    }

    /** The body of `del` once the record is found at `idx`: splice it out, subtract its bytes, count the kind down. */
    method RemoveAt(idx: nat, k: Kind)
      requires idx < |list|
      modifies this
      ensures list == old(list[..idx] + list[idx + 1..])
      ensures estBytes == if old(list[idx].estBytes) != 0 then old(estBytes - list[idx].estBytes) else old(estBytes)
      ensures byKind == old(byKind[k := Max0(KindCount(byKind, k) - 1)])
      ensures idMap == old(idMap) && nextId == old(nextId) && serials == old(serials)
    {
      var r := list[idx];
      if r.estBytes != 0 {
        estBytes := estBytes - r.estBytes;
      }
      list := list[..idx] + list[idx + 1..];
      byKind := byKind[k := Max0(KindCount(byKind, k) - 1)];
    }

    /** A wrapped `create*` call; `created` is what the original returned. Shader records keep the stage. */
    method Create(k: Kind, created: Option<Handle>, shaderType: int, t0: real, t1: real) returns (r: Option<Handle>)
      requires Valid() && k != Vao
      requires created.Some? ==> created.value !in idMap
      modifies this
      ensures Valid() && (old(CountsAgree()) ==> CountsAgree())
      ensures r == created
      ensures State() == if created.Some? then AddSpec(old(State()), k, created.value, MetaFor(k, shaderType), t0, t1) else old(State())
    {
      if created.Some? {
        Add(k, created.value, MetaFor(k, shaderType), t0, t1);
      }
      r := created;
    }

    /** A wrapped `delete*` call: a null handle is ignored; the original is always called. */
    method Delete(k: Kind, h: Option<Handle>)
      requires Valid() && k != Vao
      modifies this
      ensures Valid()
      ensures State() == if h.Some? then DelSpec(old(State()), k, h.value) else old(State())
    {
      if h.Some? {
        Del(k, h.value);
      }
    }

    /**
     * `createVertexArray` as the app reaches it: tracked only through the
     * core name of an API whose wrappers were installed (`coreName` is false
     * for a call through `createVertexArrayOES`).
     */
    method CreateVertexArray(created: Option<Handle>, coreName: bool, t0: real, t1: real) returns (r: Option<Handle>)
      requires Valid()
      requires created.Some? ==> created.value !in idMap
      modifies this
      ensures Valid() && (old(CountsAgree()) ==> CountsAgree())
      ensures r == created
      ensures State() ==
        if created.Some? && VaoTracked(isGL2, hasOesVao, coreName)
        then AddSpec(old(State()), Vao, created.value, NoMeta, t0, t1)
        else old(State())
    {
      if VaoTracked(isGL2, hasOesVao, coreName) && created.Some? {
        Add(Vao, created.value, NoMeta, t0, t1);
      }
      r := created;
    }

    method DeleteVertexArray(h: Option<Handle>, coreName: bool)
      requires Valid()
      modifies this
      ensures Valid()
      ensures State() ==
        if h.Some? && VaoTracked(isGL2, hasOesVao, coreName) then DelSpec(old(State()), Vao, h.value) else old(State())
    {
      if VaoTracked(isGL2, hasOesVao, coreName) && h.Some? {
        Del(Vao, h.value);
      }
    }

    /** `onBufferUpload(bytes)`: only the internal total changes; the exposed copy stays as it was. */
    method OnBufferUpload(bytes: int)
      modifies this
      ensures State() == old(State()).(estBytes := old(estBytes) + bytes)
      ensures serials == old(serials)
    {
      estBytes := estBytes + bytes;
    }

    /** `onTextureUpload(w, h, bpp)`: defined inside the tracker but never called. */
    method OnTextureUpload(width: int, height: int, channelsBpp: int)
      modifies this
      ensures State() == old(State()).(estBytes := old(estBytes) + width * height * channelsBpp)
      ensures serials == old(serials)
    {
      estBytes := estBytes + width * height * channelsBpp;
    }
  }

  function Max0(x: int): int { if x < 0 then 0 else x }

  /**
   * The registry's consistency: each record's id is made from its own serial,
   * serials increase along the list and stay below the next counter value,
   * the handle map is injective and maps onto exactly the ids in the list.
   */
  ghost predicate Registry(list: seq<Resource>, serials: seq<nat>, idMap: map<Handle, string>, nextId: nat) {
    nextId >= 1 && TiedToSerials(list, serials, nextId) &&
    idMap.Values == Ids(list) && Injective(idMap)
  }

  /** Each record's id is made from its serial; serials increase and stay below `nextId`. */
  ghost predicate TiedToSerials(list: seq<Resource>, serials: seq<nat>, nextId: nat) {
    |serials| == |list| &&
    (forall i :: 0 <= i < |list| ==> list[i].id == ResourceId(list[i].kind, serials[i]) && serials[i] < nextId) &&
    (forall i, j :: 0 <= i < j < |list| ==> serials[i] < serials[j])
  }

  ghost predicate Injective(m: map<Handle, string>) {
    forall h1, h2 :: h1 in m && h2 in m && h1 != h2 ==> m[h1] != m[h2]
  }

  /** Per-kind counts match the list. */
  predicate Agree(byKind: map<Kind, int>, list: seq<Resource>) {
    forall k: Kind :: k in byKind && byKind[k] == CountKind(list, k)
  }

  /** Registering a fresh handle under the next id keeps the registry consistent. */
  lemma RegistryAdd(list: seq<Resource>, serials: seq<nat>, idMap: map<Handle, string>, nextId: nat, h: Handle, r: Resource)
    requires Registry(list, serials, idMap, nextId) && h !in idMap
    requires r.id == ResourceId(r.kind, nextId)
    ensures Registry(list + [r], serials + [nextId], idMap[h := r.id], nextId + 1)
  {
    assert r.id !in Ids(list) by { SerialsFresh(list, serials, nextId, r); }
    SerialsAdd(list, serials, nextId, r);
    assert Ids(list + [r]) == Ids(list) + {r.id} by { IdsAdd(list, r); }
    ValuesAdd(idMap, h, r.id);
  }

  /** No record carries the id the next counter value makes. */
  lemma SerialsFresh(list: seq<Resource>, serials: seq<nat>, nextId: nat, r: Resource)
    requires TiedToSerials(list, serials, nextId) && r.id == ResourceId(r.kind, nextId)
    ensures r.id !in Ids(list)
  {
    if r.id in Ids(list) {
      var i :| 0 <= i < |list| && list[i].id == r.id;
      ResourceIdInjective(list[i].kind, serials[i], r.kind, nextId);
    }
  }

  lemma SerialsAdd(list: seq<Resource>, serials: seq<nat>, nextId: nat, r: Resource)
    requires TiedToSerials(list, serials, nextId) && r.id == ResourceId(r.kind, nextId)
    ensures TiedToSerials(list + [r], serials + [nextId], nextId + 1)
  {
  }

  lemma IdsAdd(list: seq<Resource>, r: Resource)
    ensures Ids(list + [r]) == Ids(list) + {r.id}
  {
    var list' := list + [r];
    forall x | x in Ids(list') ensures x in Ids(list) + {r.id} {
      var i :| 0 <= i < |list'| && list'[i].id == x;
      if i < |list| { assert list[i].id == x; }
    }
    forall x | x in Ids(list) ensures x in Ids(list') {
      var i :| 0 <= i < |list| && list[i].id == x;
      assert list'[i].id == x;
    }
    assert list'[|list|].id == r.id;
  }

  lemma ValuesAdd(m: map<Handle, string>, h: Handle, v: string)
    requires h !in m
    ensures m[h := v].Values == m.Values + {v}
  {
    var m' := m[h := v];
    forall x | x in m'.Values ensures x in m.Values + {v} {
      var k :| k in m' && m'[k] == x;
      if k != h { assert m[k] == x; }
    }
    forall x | x in m.Values + {v} ensures x in m'.Values {
      if x != v {
        var k :| k in m && m[k] == x;
        assert m'[k] == x;
      } else {
        assert m'[h] == v;
      }
    }
  }

  /** Unregistering a mapped handle removes its record, whose index `findIndex` finds. */
  lemma RegistryRemove(list: seq<Resource>, serials: seq<nat>, idMap: map<Handle, string>, nextId: nat, h: Handle)
    requires Registry(list, serials, idMap, nextId) && h in idMap
    ensures 0 <= IndexOfId(list, idMap[h])
    ensures var i := IndexOfId(list, idMap[h]);
      Ids(list[..i] + list[i + 1..]) == Ids(list) - {idMap[h]}
    ensures var i := IndexOfId(list, idMap[h]);
      Registry(list[..i] + list[i + 1..], serials[..i] + serials[i + 1..], idMap - {h}, nextId)
  {
    assert idMap[h] in Ids(list);
    RegistrySplice(list, serials, idMap, nextId, h, IndexOfId(list, idMap[h]));
  }

  /** Splicing out the record a mapped handle names, and unmapping the handle, keeps the registry consistent. */
  lemma RegistrySplice(list: seq<Resource>, serials: seq<nat>, idMap: map<Handle, string>, nextId: nat, h: Handle, i: nat)
    requires Registry(list, serials, idMap, nextId) && h in idMap && i < |list| && list[i].id == idMap[h]
    ensures Ids(list[..i] + list[i + 1..]) == Ids(list) - {idMap[h]}
    ensures Registry(list[..i] + list[i + 1..], serials[..i] + serials[i + 1..], idMap - {h}, nextId)
  {
    IdsUnique(list, serials, nextId, i);
    IdsRemove(list, i);
    ValuesRemove(idMap, h);
    InjectiveRemove(idMap, h);
    SerialsRemove(list, serials, nextId, i);
  }

  /** Dropping a key keeps a map injective. */
  lemma InjectiveRemove(m: map<Handle, string>, h: Handle)
    requires Injective(m)
    ensures Injective(m - {h})
  {
    forall h1, h2 | h1 in m - {h} && h2 in m - {h} && h1 != h2 ensures (m - {h})[h1] != (m - {h})[h2] {
      assert (m - {h})[h1] == m[h1] && (m - {h})[h2] == m[h2];
    }
  }

  /** Splicing the same index out of the records and their serials keeps ids tied to increasing serials. */
  lemma SerialsRemove(list: seq<Resource>, serials: seq<nat>, nextId: nat, i: nat)
    requires TiedToSerials(list, serials, nextId) && i < |list|
    ensures TiedToSerials(list[..i] + list[i + 1..], serials[..i] + serials[i + 1..], nextId)
  {
    var list', serials' := list[..i] + list[i + 1..], serials[..i] + serials[i + 1..];
    forall a | 0 <= a < |list'|
      ensures list'[a] == list[if a < i then a else a + 1] && serials'[a] == serials[if a < i then a else a + 1]
    {
    }
  }

  /** A new record of kind `k` raises exactly the count of `k`. */
  lemma AgreeAdd(byKind: map<Kind, int>, list: seq<Resource>, r: Resource)
    requires Agree(byKind, list)
    ensures Agree(byKind[r.kind := byKind[r.kind] + 1], list + [r])
  {
    assert (list + [r])[..|list|] == list;
  }

  /** Splicing out a record and decrementing (floored at 0) its own kind's count keeps the counts right. */
  lemma AgreeRemove(byKind: map<Kind, int>, list: seq<Resource>, i: nat)
    requires Agree(byKind, list) && i < |list|
    ensures Agree(byKind[list[i].kind := Max0(byKind[list[i].kind] - 1)], list[..i] + list[i + 1..])
  {
    forall k: Kind
      ensures CountKind(list[..i] + list[i + 1..], k) == CountKind(list, k) - (if list[i].kind == k then 1 else 0)
    {
      CountKindRemove(list, i, k);
    }
  }

  /** Ids built from strictly increasing serials are pairwise distinct. */
  lemma IdsUnique(list: seq<Resource>, serials: seq<nat>, nextId: nat, i: nat)
    requires TiedToSerials(list, serials, nextId) && i < |list|
    ensures forall j :: 0 <= j < |list| && list[j].id == list[i].id ==> j == i
  {
    forall j | 0 <= j < |list| && list[j].id == list[i].id ensures j == i {
      ResourceIdInjective(list[i].kind, serials[i], list[j].kind, serials[j]);
    }
  }

  /** Splicing out a record whose id is unique removes exactly that id. */
  lemma IdsRemove(list: seq<Resource>, idx: nat)
    requires idx < |list|
    requires forall j :: 0 <= j < |list| && list[j].id == list[idx].id ==> j == idx
    ensures Ids(list[..idx] + list[idx + 1..]) == Ids(list) - {list[idx].id}
  {
    var rest := list[..idx] + list[idx + 1..];
    forall x | x in Ids(rest) ensures x in Ids(list) - {list[idx].id} {
      var j :| 0 <= j < |rest| && rest[j].id == x;
      if j < idx { assert list[j].id == x; } else { assert list[j + 1].id == x; }
    }
    forall x | x in Ids(list) - {list[idx].id} ensures x in Ids(rest) {
      var j :| 0 <= j < |list| && list[j].id == x;
      if j < idx { assert rest[j].id == x; } else { assert rest[j - 1].id == x; }
    }
  }

  /** Removing the value of one key from an injective map removes exactly that value. */
  lemma ValuesRemove(m: map<Handle, string>, h: Handle)
    requires h in m && Injective(m)
    ensures (m - {h}).Values == m.Values - {m[h]}
  {
    forall v | v in m.Values - {m[h]} ensures v in (m - {h}).Values {
      var h1 :| h1 in m && m[h1] == v;
      assert h1 != h;
      assert (m - {h})[h1] == v;
    }
  }
}
