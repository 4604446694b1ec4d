/** The generic auto-binding buffer wrapper GLBuffer<T> of the engine: an
    owned buffer name, the target it binds to, and whether its operations
    bind it before use. Every operation acts on the buffer bound to `target`
    once its own bind has run, which is this buffer only when auto-binding is
    on. */
module GLBuffers {
  import opened Wrappers
  import GL

  class GLBuffer<T> {
    const gl: GL.GlContext<T>
    const id: nat
    const autoBind: bool
    var target: int

    /** The name is still owned by this buffer in a well-formed context. */
    ghost predicate Valid()
      reads this, gl
    {
      gl.state.Valid() && gl.elemSize > 0 && id in gl.state.names
    }

    /** What bind(t) does to the context: bind this buffer to `t` when
        auto-binding is on, nothing otherwise. */
    function BindTo(s: GL.State<T>, t: int): (r: GL.State<T>)
      requires s.Valid()
      ensures r.Valid()
    {
      if autoBind then GL.BindBuffer(s, t, id) else s
    }

    /** After bind() some buffer object is bound to `target`, so that the
        parameter queries the wrapper issues are answered. */
    predicate TargetReady()
      reads this, gl
    {
      autoBind || GL.Bound(gl.state, target).Some?
    }

    /** GLBuffer(autoBind = true, target = GL_ARRAY_BUFFER). */
    constructor (gl: GL.GlContext<T>, autoBind: bool := true, target: int := GL.ARRAY_BUFFER)
      requires gl.state.Valid() && gl.elemSize > 0
      modifies gl
      ensures Valid() && this.gl == gl && this.autoBind == autoBind && this.target == target
      ensures id !in old(gl.state.names)
      ensures gl.state == old(gl.state).(names := old(gl.state.names) + {id}, next := gl.state.next)
    {
      this.autoBind := autoBind;
      this.target := target;
      var r := GL.GenBuffer(gl.state);
      gl.state := r.0;
      this.id := r.1;
      this.gl := gl;
    }

    /** The copy constructor: a new name with the same configuration, then
        CopyStorageFrom(other). */
    constructor Copy(other: GLBuffer<T>)
      requires other.Valid() && other.TargetReady()
      modifies other.gl
      ensures Valid() && gl == other.gl && autoBind == other.autoBind && target == other.target
      ensures id !in old(other.gl.state.names)
      ensures gl.state.names == old(other.gl.state.names) + {id}
      ensures GL.ArraysKept(old(other.gl.state), gl.state)
      ensures other.autoBind ==>
        var src := GL.StoreOf(old(other.gl.state), other.id);
        && id in gl.state.stores && other.id in gl.state.stores
        && gl.state.stores[other.id] == src
        && gl.state.stores[id].data == src.data
        && gl.state.stores[id].immutable == src.immutable
        && (src.immutable ==> gl.state.stores[id].flags == src.flags)
        && (!src.immutable ==> gl.state.stores[id].usage == src.usage)
        && gl.state.bindings == old(other.gl.state.bindings)[target := id]
        && gl.state.stores.Keys == old(other.gl.state.stores.Keys) + {id, other.id}
        && (forall h :: h in old(other.gl.state.stores) && h != other.id ==>
              h in gl.state.stores && gl.state.stores[h] == old(other.gl.state.stores[h]))
      ensures !other.autoBind ==>
        && id !in gl.state.stores
        && gl.state.bindings == old(other.gl.state.bindings)
        && gl.state.stores.Keys == old(other.gl.state.stores.Keys)
        && (forall h :: h in old(other.gl.state.stores) ==>
              && gl.state.stores[h].data == old(other.gl.state.stores[h].data)
              && gl.state.stores[h].immutable == old(other.gl.state.stores[h].immutable)
              && gl.state.stores[h].usage == old(other.gl.state.stores[h].usage))
    {
      autoBind := other.autoBind;
      target := other.target;
      var g := other.gl;
      var r := GL.GenBuffer(g.state);
      g.state := r.0;
      id := r.1;
      gl := g;
      new;
      CopyStorageFrom(other);
    }

    /** The body of the copy constructor after the name is generated: query
        whether the other buffer's store is immutable, then upload its whole
        contents as immutable storage with the same flags or as mutable
        storage with the same usage. */
    method CopyStorageFrom(other: GLBuffer<T>)
      requires Valid() && other.Valid() && other.TargetReady()
      requires other.gl == gl && other.autoBind == autoBind && other.target == target
      requires id != other.id && id !in gl.state.stores
      modifies gl
      ensures Valid() && gl.state.names == old(gl.state.names) && GL.ArraysKept(old(gl.state), gl.state)
      ensures autoBind ==>
        var src := GL.StoreOf(old(gl.state), other.id);
        && id in gl.state.stores && other.id in gl.state.stores
        && gl.state.stores[other.id] == src
        && gl.state.stores[id].data == src.data
        && gl.state.stores[id].immutable == src.immutable
        && (src.immutable ==> gl.state.stores[id].flags == src.flags)
        && (!src.immutable ==> gl.state.stores[id].usage == src.usage)
        && gl.state.bindings == old(gl.state.bindings)[target := id]
        && gl.state.stores.Keys == old(gl.state.stores.Keys) + {id, other.id}
        && (forall h :: h in old(gl.state.stores) && h != other.id ==>
              h in gl.state.stores && gl.state.stores[h] == old(gl.state.stores[h]))
      ensures !autoBind ==>
        && gl.state.bindings == old(gl.state.bindings)
        && gl.state.stores.Keys == old(gl.state.stores.Keys)
        && (forall h :: h in old(gl.state.stores) ==>
              && gl.state.stores[h].data == old(gl.state.stores[h].data)
              && gl.state.stores[h].immutable == old(gl.state.stores[h].immutable)
              && gl.state.stores[h].usage == old(gl.state.stores[h].usage))
    {
      ghost var s0 := gl.state;
      other.Bind();
      ghost var s1 := gl.state;
      ghost var src := GL.StoreOf(s0, other.id);
      assert autoBind ==> s1.stores == s0.stores[other.id := src] && s1.stores[other.id] == src;
      assert autoBind ==> s1.bindings[target := id] == s0.bindings[target := id];
      var isImmutable := GL.GetBufferParameter(gl.state, other.target, gl.elemSize, GL.BUFFER_IMMUTABLE_STORAGE).value;
      if isImmutable != 0 {
        CopyImmutableFrom(other);
      } else {
        CopyMutableFrom(other);
      }
      if autoBind {
        CopiedStores(s0.stores, s1.stores, gl.state.stores, id, other.id, src, gl.state.stores[id]);
      }
    }

    /** The immutable branch of the copy constructor: other.bind(), query the
        storage flags, read the whole store and declare it as this buffer's
        immutable storage. */
    method CopyImmutableFrom(other: GLBuffer<T>)
      requires Valid() && other.Valid() && other.gl == gl && other.autoBind == autoBind && other.target == target
      requires id != other.id && GL.Bound(gl.state, target).Some?
      requires autoBind ==> GL.Bound(gl.state, target) == Some(other.id) && id !in gl.state.stores
      requires gl.state.stores[GL.Bound(gl.state, target).value].immutable
      modifies gl
      ensures Valid() && gl.state.names == old(gl.state.names) && GL.ArraysKept(old(gl.state), gl.state)
      ensures autoBind ==>
        var src := old(gl.state.stores[other.id]);
        && gl.state.stores == old(gl.state.stores)[id := GL.Store(src.data, true, src.flags, GL.DYNAMIC_DRAW)]
        && gl.state.bindings == old(gl.state.bindings)[target := id]
      ensures !autoBind ==> gl.state == old(gl.state)
    {
      ghost var s1 := gl.state;
      other.Bind();
      var immutableFlags := GL.GetBufferParameter(gl.state, other.target, gl.elemSize, GL.BUFFER_STORAGE_FLAGS).value;
      var d := other.ReadData();
      assert autoBind ==> GL.BindBuffer(s1, target, other.id) == s1 by {
        if autoBind { GL.BindAgain(s1, target, other.id); }
      }
      assert gl.state == s1 && d == GL.BoundData(s1, target);
      SetImmutableData(d, immutableFlags);
    }

    /** The mutable branch of the copy constructor: other.bind(), query the
        usage, read the whole store and upload it as this buffer's mutable
        storage. */
    method CopyMutableFrom(other: GLBuffer<T>)
      requires Valid() && other.Valid() && other.gl == gl && other.autoBind == autoBind && other.target == target
      requires id != other.id && GL.Bound(gl.state, target).Some?
      requires autoBind ==> GL.Bound(gl.state, target) == Some(other.id) && id !in gl.state.stores
      requires !gl.state.stores[GL.Bound(gl.state, target).value].immutable
      modifies gl
      ensures Valid() && gl.state.names == old(gl.state.names) && GL.ArraysKept(old(gl.state), gl.state)
      ensures autoBind ==>
        var src := old(gl.state.stores[other.id]);
        && gl.state.stores == old(gl.state.stores)[id := GL.Store(src.data, false, GL.MUTABLE_FLAGS, src.usage)]
        && gl.state.bindings == old(gl.state.bindings)[target := id]
      ensures !autoBind ==>
        var h := GL.Bound(old(gl.state), target).value;
        var src := old(gl.state.stores[h]);
        && gl.state == old(gl.state).(stores := old(gl.state.stores)[h := GL.Store(src.data, false, GL.MUTABLE_FLAGS, src.usage)])
    {
      ghost var s1 := gl.state;
      other.Bind();
      var usage := GL.GetBufferParameter(gl.state, other.target, gl.elemSize, GL.BUFFER_USAGE).value;
      var d := other.ReadData();
      assert autoBind ==> GL.BindBuffer(s1, target, other.id) == s1 by {
        if autoBind { GL.BindAgain(s1, target, other.id); }
      }
      assert gl.state == s1 && d == GL.BoundData(s1, target);
      SetMutableData(d, usage);
    }

    /** ~GLBuffer(): the name is deleted and bindings to it revert to 0. */
    method Destroy()
      requires Valid()
      modifies gl
      ensures gl.state == GL.DeleteBuffer(old(gl.state), id)
      ensures id !in gl.state.names && forall t :: t in gl.state.bindings ==> gl.state.bindings[t] != id
    {
      gl.state := GL.DeleteBuffer(gl.state, id);
    }

    method GetID() returns (r: nat)
      ensures r == id
    {
      r := id;
    }

    method SetTarget(t: int)
      modifies this`target
      ensures target == t
    {
      target := t;
    }

    /** bind(t): binds this buffer to `t` if and only if auto-binding is on. */
    method BindTarget(t: int)
      requires Valid()
      modifies gl
      ensures Valid() && gl.state == BindTo(old(gl.state), t)
      ensures autoBind ==> && gl.state.bindings == old(gl.state.bindings)[t := id]
                           && gl.state.stores == old(gl.state.stores)[id := GL.StoreOf(old(gl.state), id)]
      ensures !autoBind ==> gl.state == old(gl.state)
    {
      if autoBind {
        gl.state := GL.BindBuffer(gl.state, t, id);
      }
    }

    /** bind(): bind(target). */
    method Bind()
      requires Valid()
      modifies gl
      ensures Valid() && gl.state == BindTo(old(gl.state), target)
      ensures autoBind ==> && gl.state.bindings == old(gl.state.bindings)[target := id]
                           && gl.state.stores == old(gl.state.stores)[id := GL.StoreOf(old(gl.state), id)]
      ensures !autoBind ==> gl.state == old(gl.state)
    {
      BindTarget(target);
    }

    /** getSize(): the byte size of the store bound to `target` after bind(). */
    method GetSize() returns (size: int)
      requires Valid() && TargetReady()
      modifies gl
      ensures Valid() && gl.state == BindTo(old(gl.state), target)
      ensures GL.Bound(gl.state, target).Some? && (autoBind ==> GL.Bound(gl.state, target) == Some(id))
      ensures size == gl.elemSize * |GL.BoundData(gl.state, target)|
    {
      Bind();
      size := GL.GetBufferParameter(gl.state, target, gl.elemSize, GL.BUFFER_SIZE).value;
    }

    /** getLength(): getSize() / sizeof(T), the number of whole elements. */
    method GetLength() returns (len: int)
      requires Valid() && TargetReady()
      modifies gl
      ensures Valid() && gl.state == BindTo(old(gl.state), target)
      ensures GL.Bound(gl.state, target).Some? && (autoBind ==> GL.Bound(gl.state, target) == Some(id))
      ensures len == GL.GetBufferParameter(gl.state, target, gl.elemSize, GL.BUFFER_SIZE).value / gl.elemSize
      ensures len == |GL.BoundData(gl.state, target)|
    {
      var bufferSize := GetSize();
      len := bufferSize / gl.elemSize;
      GL.MulDiv(gl.elemSize, |GL.BoundData(gl.state, target)|);
    }

    /** setMutableData(data, usage): bind(), then glBufferData on `target`. */
    method SetMutableData(data: seq<T>, usage: int)
      requires Valid()
      modifies gl
      ensures Valid()
      ensures gl.state == GL.BufferData(BindTo(old(gl.state), target), target, data, usage)
      ensures autoBind && !GL.StoreOf(old(gl.state), id).immutable ==>
        && gl.state.stores == old(gl.state.stores)[id := GL.Store(data, false, GL.MUTABLE_FLAGS, usage)]
        && gl.state.bindings == old(gl.state.bindings)[target := id]
    {
      Bind();
      gl.state := GL.BufferData(gl.state, target, data, usage);
    }

    /** setImmutableData(data, flags): bind(), then glBufferStorage on `target`. */
    method SetImmutableData(data: seq<T>, immutableFlags: int)
      requires Valid() && immutableFlags >= 0
      modifies gl
      ensures Valid()
      ensures gl.state == GL.BufferStorage(BindTo(old(gl.state), target), target, data, immutableFlags)
      ensures autoBind && !GL.StoreOf(old(gl.state), id).immutable && |data| > 0 ==>
        && gl.state.stores == old(gl.state.stores)[id := GL.Store(data, true, immutableFlags, GL.DYNAMIC_DRAW)]
        && gl.state.bindings == old(gl.state.bindings)[target := id]
    {
      Bind();
      gl.state := GL.BufferStorage(gl.state, target, data, immutableFlags);
    }

    /** readData(offset, size): a vector of size / sizeof(T) value-initialised
        elements, overwritten by glGetBufferSubData on `target` when that call
        succeeds. No bind is issued. */
    method ReadRange(offset: int, size: nat) returns (data: seq<T>)
      requires Valid() && offset % gl.elemSize == 0 && size % gl.elemSize == 0
      ensures |data| == size / gl.elemSize
      ensures var d := GL.BoundData(gl.state, target);
              var first, count := offset / gl.elemSize, size / gl.elemSize;
        if GL.Bound(gl.state, target).Some? && 0 <= first && first + count <= |d|
        then data == d[first .. first + count]
        else forall i :: 0 <= i < |data| ==> data[i] == gl.zero
    {
      var count := size / gl.elemSize;
      data := seq(count, _ => gl.zero);
      var got := GL.GetBufferSubData(gl.state, target, offset / gl.elemSize, count);
      if got.Some? {
        data := got.value;
      }
    }

    /** readData(): readData(0, getSize()), the whole store bound to `target`
        after bind(). */
    method ReadData() returns (data: seq<T>)
      requires Valid() && TargetReady()
      modifies gl
      ensures Valid() && gl.state == BindTo(old(gl.state), target)
      ensures GL.Bound(gl.state, target).Some? && (autoBind ==> GL.Bound(gl.state, target) == Some(id))
      ensures data == GL.BoundData(gl.state, target)
    {
      var size := GetSize();
      GL.MulDiv(gl.elemSize, |GL.BoundData(gl.state, target)|);
      data := ReadRange(0, size);
    }

    /** modifyData(offset, data): bind(), then glBufferSubData of |data|
        elements at byte `offset` on `target`. */
    method ModifyData(offset: int, data: seq<T>)
      requires Valid() && offset % gl.elemSize == 0
      modifies gl
      ensures Valid()
      ensures gl.state == GL.BufferSubData(BindTo(old(gl.state), target), target, offset / gl.elemSize, data)
      ensures autoBind ==>
        var before := GL.StoreOf(old(gl.state), id).data;
        var first := offset / gl.elemSize;
        && id in gl.state.stores
        && gl.state.bindings == old(gl.state.bindings)[target := id]
        && |gl.state.stores[id].data| == |before|
        && if 0 <= first && first + |data| <= |before| && GL.Writable(GL.StoreOf(old(gl.state), id))
           then gl.state.stores[id].data == before[..first] + data + before[first + |data|..]
           else gl.state.stores[id].data == before
    {
      Bind();
      gl.state := GL.BufferSubData(gl.state, target, offset / gl.elemSize, data);
    }
  }

  /** With auto-binding, the copy constructor's calls leave the stores as
      follows: other.bind() puts the other buffer's store `src` at `oid`,
      the upload then adds the copy `x` at `id`, and nothing else changes. */
  lemma CopiedStores<T>(s0: map<nat, GL.Store<T>>, s1: map<nat, GL.Store<T>>, f: map<nat, GL.Store<T>>,
                        id: nat, oid: nat, src: GL.Store<T>, x: GL.Store<T>)
    requires id != oid && id !in s0
    requires s1 == s0[oid := src] && f == s1[id := x]
    ensures id in f && oid in f && f[oid] == src && f[id] == x
    ensures f.Keys == s0.Keys + {id, oid}
    ensures forall h :: h in s0 && h != oid ==> h in f && f[h] == s0[h]
  {
  }
}
