/** The part of an OpenGL 4.5 core context that the buffer wrapper and the
    renderable object touch: buffer names, buffer objects and their data
    stores (section 6 of the OpenGL 4.5 Core Profile specification), the
    buffer binding points, the enabled vertex attribute arrays and their
    pointers, and the draw calls issued so far (section 10).

    Each GL entry point is a pure function from the old context state to the
    new one (or to the value a query returns). A call that the specification
    makes fail with a GL error (INVALID_OPERATION, INVALID_VALUE, ...) leaves
    the state unchanged, or returns None, as the specification says.

    Data stores hold elements of one type T; `es` is the size of one element
    in bytes (sizeof(T)), so a store of n elements is es * n bytes long. */
module GL {
  import opened Wrappers

  // Enumerant values from the OpenGL 4.5 core headers.
  const ARRAY_BUFFER: int := 0x8892
  const STATIC_DRAW: int := 0x88E4
  const DYNAMIC_DRAW: int := 0x88E8
  const BUFFER_SIZE: int := 0x8764
  const BUFFER_USAGE: int := 0x8765
  const BUFFER_IMMUTABLE_STORAGE: int := 0x821F
  const BUFFER_STORAGE_FLAGS: int := 0x8220
  const TRIANGLES: int := 0x0004

  const MAP_READ_BIT: nat := 0x0001
  const MAP_WRITE_BIT: nat := 0x0002
  const DYNAMIC_STORAGE_BIT: nat := 0x0100

  /** BUFFER_STORAGE_FLAGS of a store created by BufferData (table 6.3). */
  const MUTABLE_FLAGS: nat := MAP_READ_BIT + MAP_WRITE_BIT + DYNAMIC_STORAGE_BIT

  /** A buffer object's data store and the parameters the source queries. */
  datatype Store<T> = Store(data: seq<T>, immutable: bool, flags: nat, usage: int)

  /** One glDrawArrays call. */
  datatype Draw = Draw(mode: int, first: int, count: int)

  /** names: buffer names handed out by GenBuffers and not yet deleted;
      next: the name GenBuffers hands out next;
      stores: the buffer objects that exist (created on first bind);
      bindings: the buffer bound to each target (no entry = name 0);
      attribs: the enabled generic vertex attribute arrays;
      pointers: for each attribute whose pointer was set, the buffer object
        that was bound to ARRAY_BUFFER at that moment and that it reads;
      draws: the draw calls issued, oldest first. */
  datatype State<T> = State(names: set<nat>, next: nat,
                            stores: map<nat, Store<T>>, bindings: map<int, nat>,
                            attribs: set<nat>, pointers: map<nat, nat>, draws: seq<Draw>)
  {
    ghost predicate Valid() {
      && 0 < next && 0 !in names
      && (forall n :: n in names ==> n < next)
      && stores.Keys <= names
      && (forall t :: t in bindings ==> bindings[t] in stores)
      && (forall i :: i in pointers ==> pointers[i] in stores)
      && (forall h :: h in stores && stores[h].immutable ==> |stores[h].data| > 0)
    }
  }

  /** A context in which no buffer name has been generated yet. */
  function Initial<T>(): (s: State<T>)
    ensures s.Valid() && s.names == {} && s.stores == map[] && s.bindings == map[]
  {
    State({}, 1, map[], map[], {}, map[], [])
  }

  /** The state of a buffer object when it is created by its first bind (table 6.2). */
  function EmptyStore<T>(): Store<T> {
    Store([], false, 0, STATIC_DRAW)
  }

  predicate HasBit(flags: nat, bit: nat)
    requires bit > 0
  {
    (flags / bit) % 2 == 1
  }

  /** Whether BufferSubData may write the store (section 6.2). */
  predicate Writable<T>(st: Store<T>) {
    !st.immutable || HasBit(st.flags, DYNAMIC_STORAGE_BIT)
  }

  /** The vertex attribute arrays, their pointers and the draws of `r` are
      those of `s`: a buffer-object call leaves them alone. */
  predicate ArraysKept<T>(s: State<T>, r: State<T>) {
    r.attribs == s.attribs && r.pointers == s.pointers && r.draws == s.draws
  }

  /** The buffer object bound to `t`, if any. */
  function Bound<T>(s: State<T>, t: int): (r: Option<nat>)
    ensures r.Some? ==> r.value in s.stores
    ensures s.Valid() ==> (r.Some? <==> t in s.bindings)
  {
    if t in s.bindings && s.bindings[t] in s.stores then Some(s.bindings[t]) else None
  }

  /** The store of name `h`, or the store its first bind would create. */
  function StoreOf<T>(s: State<T>, h: nat): Store<T> {
    if h in s.stores then s.stores[h] else EmptyStore()
  }

  /** glGenBuffers(1, &id): returns an unused, non-zero name. */
  function GenBuffer<T>(s: State<T>): (r: (State<T>, nat))
    requires s.Valid()
    ensures r.0.Valid()
    ensures r.1 != 0 && r.1 !in s.names
    ensures r.0 == s.(names := s.names + {r.1}, next := r.0.next)
  {
    (s.(names := s.names + {s.next}, next := s.next + 1), s.next)
  }

  /** glDeleteBuffers(1, &h): the object is destroyed, every binding to it
      reverts to 0 and every vertex attribute reading it is detached
      (automatic unbinding, section 5.1.2); unused names and 0 are silently
      ignored. */
  function DeleteBuffer<T>(s: State<T>, h: nat): (r: State<T>)
    requires s.Valid()
    ensures r.Valid()
    ensures h !in r.names && h !in r.stores
    ensures forall t :: t in r.bindings ==> r.bindings[t] != h
    ensures r.names == s.names - {h}
    ensures forall g :: g in s.stores && g != h ==> g in r.stores && r.stores[g] == s.stores[g]
    ensures forall t :: t in s.bindings && s.bindings[t] != h ==> t in r.bindings && r.bindings[t] == s.bindings[t]
    ensures forall i :: i in r.pointers ==> r.pointers[i] != h
    ensures forall i :: i in s.pointers && s.pointers[i] != h ==> i in r.pointers && r.pointers[i] == s.pointers[i]
    ensures r.attribs == s.attribs && r.draws == s.draws
  {
    if h == 0 || h !in s.names then s
    else
      s.(names := s.names - {h},
         stores := s.stores - {h},
         bindings := map t | t in s.bindings && s.bindings[t] != h :: s.bindings[t],
         pointers := map i | i in s.pointers && s.pointers[i] != h :: s.pointers[i])
  }

  /** glBindBuffer(t, h): binding 0 unbinds; binding a name that was never
      generated is INVALID_OPERATION; the first bind of a name creates its
      buffer object. */
  function BindBuffer<T>(s: State<T>, t: int, h: nat): (r: State<T>)
    requires s.Valid()
    ensures r.Valid()
    ensures r.names == s.names && r.next == s.next && ArraysKept(s, r)
    ensures h in s.names ==> r.bindings == s.bindings[t := h] && r.stores == s.stores[h := StoreOf(s, h)]
    ensures h == 0 ==> r.bindings == s.bindings - {t} && r.stores == s.stores
    ensures h != 0 && h !in s.names ==> r == s
  {
    if h == 0 then s.(bindings := s.bindings - {t})
    else if h !in s.names then s
    else s.(stores := s.stores[h := StoreOf(s, h)], bindings := s.bindings[t := h])
  }

  /** Binding the buffer already bound to `t` again changes nothing. */
  lemma BindAgain<T>(s: State<T>, t: int, h: nat)
    requires s.Valid() && Bound(s, t) == Some(h)
    ensures BindBuffer(s, t, h) == s
  {
    assert s.bindings[t := h] == s.bindings;
    assert s.stores[h := StoreOf(s, h)] == s.stores;
  }

  /** glBufferData(t, es * |data|, data, usage): fails with INVALID_OPERATION
      when nothing is bound to `t` or the bound store is immutable. */
  function BufferData<T>(s: State<T>, t: int, data: seq<T>, usage: int): (r: State<T>)
    ensures s.Valid() ==> r.Valid()
    ensures r.names == s.names && r.next == s.next && r.bindings == s.bindings
    ensures r.stores.Keys == s.stores.Keys && ArraysKept(s, r)
  {
    match Bound(s, t)
    case None => s
    case Some(h) =>
      if s.stores[h].immutable then s
      else s.(stores := s.stores[h := Store(data, false, MUTABLE_FLAGS, usage)])
  }

  /** glBufferStorage(t, es * |data|, data, flags): fails with
      INVALID_OPERATION when nothing is bound to `t` or the bound store is
      already immutable, and with INVALID_VALUE when the size is zero. */
  function BufferStorage<T>(s: State<T>, t: int, data: seq<T>, flags: nat): (r: State<T>)
    ensures s.Valid() ==> r.Valid()
    ensures r.names == s.names && r.next == s.next && r.bindings == s.bindings
    ensures r.stores.Keys == s.stores.Keys && ArraysKept(s, r)
  {
    match Bound(s, t)
    case None => s
    case Some(h) =>
      if s.stores[h].immutable || |data| == 0 then s
      else s.(stores := s.stores[h := Store(data, true, flags, DYNAMIC_DRAW)])
  }

  /** glBufferSubData(t, es * first, es * |data|, data), with the byte offset
      given as the element index `first`: fails with INVALID_OPERATION when
      nothing is bound or the store is not writable, and with INVALID_VALUE
      when the range leaves the store. */
  function BufferSubData<T>(s: State<T>, t: int, first: int, data: seq<T>): (r: State<T>)
    ensures s.Valid() ==> r.Valid()
    ensures r.names == s.names && r.next == s.next && r.bindings == s.bindings
    ensures r.stores.Keys == s.stores.Keys && ArraysKept(s, r)
  {
    match Bound(s, t)
    case None => s
    case Some(h) =>
      var st := s.stores[h];
      if first < 0 || first + |data| > |st.data| || !Writable(st) then s
      else s.(stores := s.stores[h := st.(data := st.data[..first] + data + st.data[first + |data|..])])
  }

  /** glGetBufferSubData(t, es * first, es * count, out), with the byte range
      given in elements: the `count` elements from index `first` on, or None
      for INVALID_OPERATION (nothing bound) and INVALID_VALUE (range outside
      the store). */
  function GetBufferSubData<T>(s: State<T>, t: int, first: int, count: nat): (r: Option<seq<T>>)
    ensures r.Some? <==> Bound(s, t).Some? && 0 <= first && first + count <= |BoundData(s, t)|
    ensures r.Some? ==> |r.value| == count && r.value == BoundData(s, t)[first .. first + count]
  {
    match Bound(s, t)
    case None => None
    case Some(h) =>
      var d := s.stores[h].data;
      if first < 0 || first + count > |d| then None
      else Some(d[first .. first + count])
  }

  /** glGetBufferParameteriv(t, pname, &out): None when nothing is bound to `t`
      (INVALID_OPERATION) or `pname` is not one of the four queried here. */
  function GetBufferParameter<T>(s: State<T>, t: int, es: nat, pname: int): (r: Option<int>)
    ensures r.Some? <==> Bound(s, t).Some? && pname in {BUFFER_SIZE, BUFFER_USAGE, BUFFER_IMMUTABLE_STORAGE, BUFFER_STORAGE_FLAGS}
    ensures Bound(s, t).Some? ==>
      var st := s.stores[Bound(s, t).value];
      && (pname == BUFFER_SIZE ==> r == Some(es * |BoundData(s, t)|))
      && (pname == BUFFER_USAGE ==> r == Some(st.usage))
      && (pname == BUFFER_IMMUTABLE_STORAGE ==> r.Some? && (r.value != 0 <==> st.immutable))
      && (pname == BUFFER_STORAGE_FLAGS ==> r == Some(st.flags))
  {
    match Bound(s, t)
    case None => None
    case Some(h) =>
      var st := s.stores[h];
      if pname == BUFFER_SIZE then Some(es * |st.data|)
      else if pname == BUFFER_USAGE then Some(st.usage)
      else if pname == BUFFER_IMMUTABLE_STORAGE then Some(if st.immutable then 1 else 0)
      else if pname == BUFFER_STORAGE_FLAGS then Some(st.flags)
      else None
  }

  /** glEnableVertexAttribArray(index): the array is enabled; nothing else
      changes. */
  function EnableVertexAttribArray<T>(s: State<T>, index: nat): (r: State<T>)
    ensures r.attribs == s.attribs + {index}
    ensures r.names == s.names && r.next == s.next && r.stores == s.stores && r.bindings == s.bindings
    ensures r.pointers == s.pointers && r.draws == s.draws
  {
    s.(attribs := s.attribs + {index})
  }

  /** glDisableVertexAttribArray(index): the array is disabled; nothing else
      changes. */
  function DisableVertexAttribArray<T>(s: State<T>, index: nat): (r: State<T>)
    ensures r.attribs == s.attribs - {index}
    ensures r.names == s.names && r.next == s.next && r.stores == s.stores && r.bindings == s.bindings
    ensures r.pointers == s.pointers && r.draws == s.draws
  {
    s.(attribs := s.attribs - {index})
  }

  /** glVertexAttribPointer(index, size, ...) with a zero offset: the
      attribute reads the buffer bound to ARRAY_BUFFER; a size outside 1..4
      is INVALID_VALUE. With no buffer bound nothing is recorded (client-side
      arrays are not modelled). */
  function VertexAttribPointer<T>(s: State<T>, index: nat, size: int): (r: State<T>)
    ensures s.Valid() ==> r.Valid()
    ensures r.names == s.names && r.next == s.next && r.stores == s.stores && r.bindings == s.bindings
    ensures r.attribs == s.attribs && r.draws == s.draws
    ensures 1 <= size <= 4 && Bound(s, ARRAY_BUFFER).Some? ==>
              r.pointers == s.pointers[index := Bound(s, ARRAY_BUFFER).value]
    ensures !(1 <= size <= 4 && Bound(s, ARRAY_BUFFER).Some?) ==> r == s
  {
    if size < 1 || size > 4 then s
    else
      match Bound(s, ARRAY_BUFFER)
      case None => s
      case Some(h) => s.(pointers := s.pointers[index := h])
  }

  /** glDrawArrays(mode, first, count): a negative count is INVALID_VALUE. */
  function DrawArrays<T>(s: State<T>, mode: int, first: int, count: int): (r: State<T>)
    ensures count >= 0 ==> r.draws == s.draws + [Draw(mode, first, count)]
    ensures count < 0 ==> r == s
    ensures r.names == s.names && r.next == s.next && r.stores == s.stores && r.bindings == s.bindings
    ensures r.attribs == s.attribs && r.pointers == s.pointers
  {
    if count < 0 then s else s.(draws := s.draws + [Draw(mode, first, count)])
  }

  /** The data of the store bound to `t`, empty when nothing is bound. */
  function BoundData<T>(s: State<T>, t: int): seq<T> {
    match Bound(s, t)
    case None => []
    case Some(h) => s.stores[h].data
  }

  /** The current GL context: the state every GL call reads and replaces,
      together with the element type's size in bytes and its value-initialised
      element T(), which `std::vector<T>(n)` fills a fresh vector with. */
  class GlContext<T> {
    var state: State<T>
    const elemSize: nat
    const zero: T

    constructor (elemSize: nat, zero: T)
      requires elemSize > 0
      ensures state == Initial() && this.elemSize == elemSize && this.zero == zero
    {
      state := Initial();
      this.elemSize := elemSize;
      this.zero := zero;
    }
  }

  // ---------------------------------------------------------------------
  // Byte arithmetic

  lemma {:induction false} MulAtLeast(b: int, d: int)
    requires b > 0 && d >= 1
    ensures b * d >= b
  {
    if d > 1 {
      MulAtLeast(b, d - 1);
      assert b * d == b * (d - 1) + b;
    }
  }

  /** Euclidean division has one quotient and one remainder. */
  lemma DivUnique(a: int, b: int, q: int, r: int)
    requires b > 0 && 0 <= r < b && a == b * q + r
    ensures a / b == q && a % b == r
  {
    var q', r' := a / b, a % b;
    assert a == b * q' + r';
    var d := q - q';
    assert b * d == b * q - b * q';
    if d >= 1 {
      MulAtLeast(b, d);
    } else if d <= -1 {
      MulAtLeast(b, -d);
    }
  }

  /** A byte size of whole elements divides back into the element count. */
  lemma MulDiv(es: nat, n: nat)
    requires es > 0
    ensures (es * n) % es == 0 && (es * n) / es == n
  {
    DivUnique(es * n, es, n, 0);
  }

  // ---------------------------------------------------------------------
  // Properties of the buffer-object model

  /** After BufferData has replaced a mutable store, the store reports
      es * |data| bytes, mutable storage and the given usage, and reading all
      of it gives `data` back. */
  lemma BufferDataRoundTrip<T>(s: State<T>, t: int, es: nat, data: seq<T>, usage: int)
    requires s.Valid() && Bound(s, t).Some? && !s.stores[Bound(s, t).value].immutable
    ensures var r := BufferData(s, t, data, usage);
      && Bound(r, t) == Bound(s, t)
      && GetBufferParameter(r, t, es, BUFFER_SIZE) == Some(es * |data|)
      && GetBufferSubData(r, t, 0, |data|) == Some(data)
      && GetBufferParameter(r, t, es, BUFFER_IMMUTABLE_STORAGE) == Some(0)
      && GetBufferParameter(r, t, es, BUFFER_USAGE) == Some(usage)
  {
    var r := BufferData(s, t, data, usage);
    var h := Bound(s, t).value;
    assert r.stores[h] == Store(data, false, MUTABLE_FLAGS, usage);
    assert data[0 .. |data|] == data;
  }

  /** After BufferStorage has declared an immutable store with non-empty
      data, the store reads back as `data` and reports itself immutable with
      the given flags, and neither BufferData nor a second BufferStorage can
      change it. */
  lemma BufferStorageIsFinal<T>(s: State<T>, t: int, es: nat, data: seq<T>, flags: nat,
                                data2: seq<T>, x: nat)
    requires s.Valid() && |data| > 0
    requires Bound(s, t).Some? && !s.stores[Bound(s, t).value].immutable
    ensures var r := BufferStorage(s, t, data, flags);
      && Bound(r, t) == Bound(s, t)
      && GetBufferSubData(r, t, 0, |data|) == Some(data)
      && GetBufferParameter(r, t, es, BUFFER_IMMUTABLE_STORAGE) == Some(1)
      && GetBufferParameter(r, t, es, BUFFER_STORAGE_FLAGS) == Some(flags)
      && BufferData(r, t, data2, x) == r
      && BufferStorage(r, t, data2, x) == r
  {
    var r := BufferStorage(s, t, data, flags);
    var h := Bound(s, t).value;
    assert r.stores[h] == Store(data, true, flags, DYNAMIC_DRAW);
    assert data[0 .. |data|] == data;
  }

  /** A BufferSubData within a writable store overwrites exactly the |data|
      elements from `first` on and leaves the store's length, its other
      elements, every other store and every binding as they were; outside
      that case it changes nothing. */
  lemma BufferSubDataReplaces<T>(s: State<T>, t: int, first: int, data: seq<T>)
    requires s.Valid()
    ensures var r := BufferSubData(s, t, first, data);
            var d := BoundData(s, t);
      if Bound(s, t).Some? && 0 <= first && first + |data| <= |d| && Writable(s.stores[Bound(s, t).value]) then
        && Bound(r, t) == Bound(s, t)
        && |BoundData(r, t)| == |d|
        && BoundData(r, t)[first .. first + |data|] == data
        && (forall i :: 0 <= i < |d| && !(first <= i < first + |data|) ==> BoundData(r, t)[i] == d[i])
        && r.bindings == s.bindings && r.names == s.names
        && (forall g :: g in s.stores && g != Bound(s, t).value ==> g in r.stores && r.stores[g] == s.stores[g])
      else r == s
  {
    match Bound(s, t)
    case None =>
    case Some(h) =>
      var st := s.stores[h];
      if 0 <= first && first + |data| <= |st.data| && Writable(st) {
        var nd := st.data[..first] + data + st.data[first + |data|..];
        assert nd[first .. first + |data|] == data;
        assert forall i :: 0 <= i < |st.data| && !(first <= i < first + |data|) ==> nd[i] == st.data[i];
      }
  }
}
