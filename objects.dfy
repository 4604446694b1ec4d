/** The engine's renderable object (class Object): a vertex buffer of
    positions, auto-binding on ARRAY_BUFFER as a default-constructed
    GLBuffer is, and the shader it is rendered with. The shader is an opaque
    value S; the program and uniform calls render makes are not modelled. */
module Objects {
  import opened Wrappers
  import GL
  import GLBuffers
  import ObjLoader

  class Object<C, S> {
    const vertexBuffer: GLBuffers.GLBuffer<ObjLoader.Vec3<C>>
    var shader: S

    /** The buffer is a live, auto-binding buffer in a well-formed context. */
    ghost predicate Valid()
      reads this, vertexBuffer, vertexBuffer.gl
    {
      vertexBuffer.Valid() && vertexBuffer.autoBind
    }

    /** The data of the vertex buffer's store in context state `s`. */
    function Vertices(s: GL.State<ObjLoader.Vec3<C>>): seq<ObjLoader.Vec3<C>>
      reads this
    {
      GL.StoreOf(s, vertexBuffer.id).data
    }

    /** Object(shaderPointer): a fresh, empty vertex buffer, set up by hand
        through getVertexBuffer(). */
    constructor (gl: GL.GlContext<ObjLoader.Vec3<C>>, shader: S)
      requires gl.state.Valid() && gl.elemSize > 0
      modifies gl
      ensures Valid() && vertexBuffer.gl == gl && vertexBuffer.target == GL.ARRAY_BUFFER
      ensures this.shader == shader
      ensures vertexBuffer.id !in old(gl.state.names)
      ensures gl.state == old(gl.state).(names := old(gl.state.names) + {vertexBuffer.id}, next := gl.state.next)
    {
      vertexBuffer := new GLBuffers.GLBuffer(gl);
      this.shader := shader;
    }

    /** Object(vertices, shaderPointer): the vertex buffer gets a mutable
        store holding exactly `vertices`, with usage DYNAMIC_DRAW, and stays
        bound to ARRAY_BUFFER. */
    constructor FromVertices(gl: GL.GlContext<ObjLoader.Vec3<C>>, vertices: seq<ObjLoader.Vec3<C>>, shader: S)
      requires gl.state.Valid() && gl.elemSize > 0
      modifies gl
      ensures Valid() && vertexBuffer.gl == gl && vertexBuffer.target == GL.ARRAY_BUFFER
      ensures this.shader == shader
      ensures vertexBuffer.id !in old(gl.state.names)
      ensures gl.state.names == old(gl.state.names) + {vertexBuffer.id}
      ensures GL.ArraysKept(old(gl.state), gl.state)
      ensures gl.state.stores ==
                old(gl.state.stores)[vertexBuffer.id := GL.Store(vertices, false, GL.MUTABLE_FLAGS, GL.DYNAMIC_DRAW)]
      ensures gl.state.bindings == old(gl.state.bindings)[GL.ARRAY_BUFFER := vertexBuffer.id]
      ensures Vertices(gl.state) == vertices
    {
      vertexBuffer := new GLBuffers.GLBuffer(gl);
      this.shader := shader;
      new;
      vertexBuffer.SetMutableData(vertices, GL.DYNAMIC_DRAW);
    }

    /** Object(objectPath, shaderPointer): loads the file with loadOBJData
        and keeps only the positions, which become the vertex buffer's
        mutable DYNAMIC_DRAW store; when loading fails the store is empty.
        `file` is None when the file cannot be opened. */
    constructor FromFile(gl: GL.GlContext<ObjLoader.Vec3<C>>, file: Option<seq<ObjLoader.Line<C>>>, shader: S)
      requires gl.state.Valid() && gl.elemSize > 0 && ObjLoader.Loadable(file)
      modifies gl
      ensures Valid() && vertexBuffer.gl == gl && vertexBuffer.target == GL.ARRAY_BUFFER
      ensures this.shader == shader
      ensures vertexBuffer.id !in old(gl.state.names)
      ensures gl.state.names == old(gl.state.names) + {vertexBuffer.id}
      ensures GL.ArraysKept(old(gl.state), gl.state)
      ensures var positions := if ObjLoader.Load(file).Some? then ObjLoader.Load(file).value.positions else [];
        gl.state.stores ==
          old(gl.state.stores)[vertexBuffer.id := GL.Store(positions, false, GL.MUTABLE_FLAGS, GL.DYNAMIC_DRAW)]
      ensures gl.state.bindings == old(gl.state.bindings)[GL.ARRAY_BUFFER := vertexBuffer.id]
    {
      vertexBuffer := new GLBuffers.GLBuffer(gl);
      this.shader := shader;
      new;
      var ok, vertices, uvs, normals := ObjLoader.LoadObjData(file, [], [], []);
      assert ok ==> [] + ObjLoader.Load(file).value.positions == ObjLoader.Load(file).value.positions;
      vertexBuffer.SetMutableData(vertices, GL.DYNAMIC_DRAW);
    }

    /** getVertexBuffer(): the object's own buffer, for the caller to change. */
    method GetVertexBuffer() returns (b: GLBuffers.GLBuffer<ObjLoader.Vec3<C>>)
      ensures b == vertexBuffer
    {
      b := vertexBuffer;
    }

    /** setShader(shaderPointer). */
    method SetShader(shader: S)
      modifies this`shader
      ensures this.shader == shader
    {
      this.shader := shader;
    }

    /** getShader(). */
    method GetShader() returns (s: S)
      ensures s == shader
    {
      s := shader;
    }

    /** render(MVP): enable attribute 0, bind the vertex buffer to
        ARRAY_BUFFER, point attribute 0 at it (three components), draw
        getLength() vertices as triangles from vertex 0, disable attribute 0.
        The draw covers every vertex of the buffer, which attribute 0 reads;
        once getLength() has bound it, the buffer is also bound to its own
        target. */
    method Render()
      requires Valid()
      modifies vertexBuffer.gl
      ensures Valid()
      ensures var s := old(vertexBuffer.gl.state);
              var r := vertexBuffer.gl.state;
              var id := vertexBuffer.id;
        && r.draws == s.draws + [GL.Draw(GL.TRIANGLES, 0, |Vertices(s)|)]
        && r.pointers == s.pointers[0 := id]
        && r.attribs == s.attribs - {0}
        && r.bindings == s.bindings[GL.ARRAY_BUFFER := id][vertexBuffer.target := id]
        && r.stores == s.stores[id := GL.StoreOf(s, id)]
        && r.names == s.names && r.next == s.next
      ensures Vertices(vertexBuffer.gl.state) == Vertices(old(vertexBuffer.gl.state))
    {
      var gl, id := vertexBuffer.gl, vertexBuffer.id;
      ghost var s0 := gl.state;
      gl.state := GL.EnableVertexAttribArray(gl.state, 0);
      ghost var s1 := gl.state;
      vertexBuffer.BindTarget(GL.ARRAY_BUFFER);
      assert gl.state == GL.BindBuffer(s1, GL.ARRAY_BUFFER, id);
      gl.state := GL.VertexAttribPointer(gl.state, 0, 3);
      ghost var s3 := gl.state;
      var len := vertexBuffer.GetLength();
      assert gl.state == GL.BindBuffer(s3, vertexBuffer.target, id);
      RenderCalls(s0, id, vertexBuffer.target);
      gl.state := GL.DrawArrays(gl.state, GL.TRIANGLES, 0, len);
      gl.state := GL.DisableVertexAttribArray(gl.state, 0);
    }
  }

  /** The GL calls of render, made on the context state `s` for the buffer
      `id` whose own target is `t`: the draw covers every element of the
      buffer's store, attribute 0 ends disabled and reading the buffer, the
      buffer ends bound to ARRAY_BUFFER and to `t`, and no store changes its
      contents. */
  lemma RenderCalls<T>(s: GL.State<T>, id: nat, t: int)
    requires s.Valid() && id in s.names
    ensures var s1 := GL.EnableVertexAttribArray(s, 0);
            var s2 := GL.BindBuffer(s1, GL.ARRAY_BUFFER, id);
            var s3 := GL.VertexAttribPointer(s2, 0, 3);
            var s4 := GL.BindBuffer(s3, t, id);
            var n := |GL.StoreOf(s, id).data|;
            var r := GL.DisableVertexAttribArray(GL.DrawArrays(s4, GL.TRIANGLES, 0, n), 0);
      && s4.Valid() && GL.Bound(s4, t) == Some(id)
      && GL.BoundData(s4, t) == GL.StoreOf(s, id).data
      && r.Valid()
      && r.draws == s.draws + [GL.Draw(GL.TRIANGLES, 0, n)]
      && r.pointers == s.pointers[0 := id]
      && r.attribs == s.attribs - {0}
      && r.bindings == s.bindings[GL.ARRAY_BUFFER := id][t := id]
      && r.stores == s.stores[id := GL.StoreOf(s, id)]
      && r.names == s.names && r.next == s.next
  {
    var s2 := GL.BindBuffer(GL.EnableVertexAttribArray(s, 0), GL.ARRAY_BUFFER, id);
    var s4 := GL.BindBuffer(GL.VertexAttribPointer(s2, 0, 3), t, id);
    BeforeDraw(s, id, t);
    DrawThenDisable(s4, |GL.StoreOf(s, id).data|);
  }

  /** The GL calls render makes before it draws, on the context state `s`
      for the buffer `id` whose own target is `t`: attribute 0 is enabled
      and reads the buffer, which is bound to ARRAY_BUFFER and to `t`, and
      no store changes its contents. */
  lemma BeforeDraw<T>(s: GL.State<T>, id: nat, t: int)
    requires s.Valid() && id in s.names
    ensures var s2 := GL.BindBuffer(GL.EnableVertexAttribArray(s, 0), GL.ARRAY_BUFFER, id);
            var r := GL.BindBuffer(GL.VertexAttribPointer(s2, 0, 3), t, id);
      && r.Valid() && GL.Bound(r, t) == Some(id)
      && GL.BoundData(r, t) == GL.StoreOf(s, id).data
      && r.draws == s.draws
      && r.pointers == s.pointers[0 := id]
      && r.attribs == s.attribs + {0}
      && r.bindings == s.bindings[GL.ARRAY_BUFFER := id][t := id]
      && r.stores == s.stores[id := GL.StoreOf(s, id)]
      && r.names == s.names && r.next == s.next
  {
    var s2 := GL.BindBuffer(GL.EnableVertexAttribArray(s, 0), GL.ARRAY_BUFFER, id);
    assert GL.Bound(s2, GL.ARRAY_BUFFER) == Some(id);
    var s3 := GL.VertexAttribPointer(s2, 0, 3);
    assert s3.stores == s.stores[id := GL.StoreOf(s, id)];
  }

  /** The two calls that end render: one TRIANGLES draw of `n` vertices from
      vertex 0 is recorded and attribute 0 is disabled; nothing else changes. */
  lemma DrawThenDisable<T>(s: GL.State<T>, n: nat)
    requires s.Valid()
    ensures var r := GL.DisableVertexAttribArray(GL.DrawArrays(s, GL.TRIANGLES, 0, n), 0);
      && r.Valid()
      && r.draws == s.draws + [GL.Draw(GL.TRIANGLES, 0, n)]
      && r.attribs == s.attribs - {0}
      && r.pointers == s.pointers && r.bindings == s.bindings && r.stores == s.stores
      && r.names == s.names && r.next == s.next
  {
  }
}
