# SDL3D core in Dafny

This project models three parts of SDL3D, a small C++ OpenGL/SDL engine:

- **The Wavefront OBJ loader** `Object::loadOBJData`. A file is a sequence of lines, and each line is already split into words. The reading loop dispatches on the first word:
  - `v` and `vn` append a triple to a temporary table;
  - `vt` appends a pair;
  - `f` records three 1-based index triples, and gives up when one of its first three references does not have exactly three `/`-separated fields.

  The resolution loop then appends `table[index - 1]` for every recorded index to the three output vectors.
- **The renderable `Object`**: its three constructors, `getVertexBuffer`, `setShader`/`getShader` and `render`.
- **The auto-binding buffer wrapper `GLBuffer<T>`**. It runs over a model of the parts of an OpenGL 4.5 core context it and `Object` use: the buffer objects of section 6 of the OpenGL 4.5 Core Profile specification, and the vertex attribute arrays and drawing commands of section 10. That model covers:
  - buffer names and lazily created buffer objects;
  - binding points;
  - mutable stores (`glBufferData`) and immutable stores (`glBufferStorage`);
  - partial writes and reads (`glBufferSubData`, `glGetBufferSubData`);
  - parameter queries;
  - vertex attribute arrays and pointers;
  - draw calls.
- **The `InputManager`**: a registry from SDL key codes to pressed states, updated by keyboard events, plus the mouse position and relative motion set by mouse-motion events.

Modules:

- `Wrappers` holds `Option`.
- `GL` holds the driver model. Each GL entry point is a function from the old context state to the new state, or to the value a query returns. `GlContext` is the current context, with its state in a mutable field.
- `GLBuffers` holds the class `GLBuffer<T>`.
- `ObjLoader` holds the loader: the method `LoadObjData` with both of its loops, the specification functions it is proved against, and reference definitions of each table and index list.
- `Objects` holds the class `Object<C, S>`. `C` is the coordinate type and `S` the shader handle.
- `Input` holds the class `InputManager` and the functions that specify it.

Modelling choices:

- **Fatal errors.** A fatal `crash`/`CRASH` is modelled as the operation reporting failure (`false`) and stopping.
- **GL errors.** A GL call that raises an error changes nothing, or its query returns `None`.
- **Element sizes.** A store holds elements of `T`. Its byte size is `elemSize * |data|`, where `elemSize` is `sizeof(T)`.

Where the comments in the source and its code disagree, the model follows the code:

- The comment at `src/GLBuffer.hpp:40` says `bind()` binds even when auto-binding is off. `src/GLBuffer.hpp:99` binds only when it is on. `GLBuffer.BindTarget` follows the code.
- The comment at `src/GLBuffer.hpp:54` speaks of unbinding the copy buffers. Next to it, the saving of the COPY_WRITE_BUFFER and COPY_READ_BUFFER bindings is commented out (`src/GLBuffer.hpp:57-58`), and the code touches neither binding point. Under auto-binding the new buffer is left bound to its target; `GLBuffer.Copy` states that.
- `modifyData` (`src/GLBuffer.hpp:155`) passes the size of an undeclared `vertices`, and the template would not compile if instantiated. `GLBuffer.ModifyData` models the evident intent: overwrite `|data|` elements at `offset`.
- The loader checks only the field count of a face's first three references:
  - further references are never read;
  - a face line with fewer than four words reads past the end of the word list. That is undefined behaviour, so it is a precondition (`LineOk`), stated only for the lines the loop reaches (`Readable`): those up to and including the first rejected face.
- Indices are resolved after the whole file has been read, so a face may refer to a vertex defined after it.
- Indices are not bounds-checked (`src/Object.cpp:133`, `:136`, `:139`). Being in range is a precondition (`Loadable`).
- With auto-binding off, the copy constructor's `bind()` calls do nothing, so its queries and uploads act on whatever buffer is bound to the target. The copy then owns a name but no buffer object; `GLBuffer.Copy` states that case.

## Model

| member | source | states |
|---|---|---|
| GL.GenBuffer | src/GLBuffer.hpp:46 | the name returned is non-zero and not live; the only change is that it becomes live |
| GL.DeleteBuffer | src/GLBuffer.hpp:51 | the name and its buffer object are gone, no target is bound to it and no vertex attribute reads it; every other object, binding and attribute pointer is kept |
| GL.BindBuffer | src/GLBuffer.hpp:100 | binding a live name makes it the target's binding and creates its object on first use; binding 0 unbinds; binding a name never generated changes nothing; the set of names, the attribute arrays, their pointers and the draws are untouched |
| GL.BindAgain | src/GLBuffer.hpp:67-81 | binding the buffer already bound to a target again changes nothing, which is why the repeated `other.bind()` calls of the copy constructor are harmless |
| GL.BufferData | src/GLBuffer.hpp:128 | keeps the context well formed; changes no name, binding, set of objects, attribute or draw |
| GL.BufferStorage | src/GLBuffer.hpp:134 | keeps the context well formed; changes no name, binding, set of objects, attribute or draw |
| GL.BufferSubData | src/GLBuffer.hpp:155 | keeps the context well formed; changes no name, binding, set of objects, attribute or draw |
| GL.GetBufferParameter | src/GLBuffer.hpp:66-116 | a query answers exactly when a buffer is bound to the target and the parameter is one of size, usage, immutability and storage flags; the size is elemSize times the element count of the bound store, and the other three are that store's usage, immutability (non-zero exactly when immutable) and flags |
| GL.GetBufferSubData | src/GLBuffer.hpp:140 | a read succeeds exactly when a buffer is bound and the range lies inside its store, and then returns exactly the requested elements of that store |
| GL.EnableVertexAttribArray | src/Object.cpp:167 | attribute array `index` is enabled, every other array keeps its state, and nothing else changes |
| GL.DisableVertexAttribArray | src/Object.cpp:181 | attribute array `index` is disabled, every other array keeps its state, and nothing else changes |
| GL.DrawArrays | src/Object.cpp:180 | a non-negative count appends exactly one draw with the given mode, first vertex and count; a negative count changes nothing; no other part of the context changes |
| GL.VertexAttribPointer | src/Object.cpp:171-178 | with a buffer bound to ARRAY_BUFFER and a size in 1..4, the attribute reads that buffer; otherwise nothing changes |
| GL.MulDiv | src/GLBuffer.hpp:118-123 | a byte size of n whole elements divides by the element size back to n, with no remainder |
| GL.BufferDataRoundTrip | src/GLBuffer.hpp:125-129 | after glBufferData on a mutable store, the size query gives elemSize times the length of data, reading everything back gives data, and the store reports mutable storage and the given usage |
| GL.BufferStorageIsFinal | src/GLBuffer.hpp:131-135 | after glBufferStorage with non-empty data, reading back gives data, the store reports immutable storage and the given flags, and later glBufferData or glBufferStorage calls change nothing |
| GL.BufferSubDataReplaces | src/GLBuffer.hpp:151-156 | a write within a writable store overwrites exactly as many elements as data holds, from first on, and keeps the length, all other elements, other stores and bindings; otherwise it changes nothing |
| GLBuffers.GLBuffer.constructor | src/GLBuffer.hpp:41-47 | records autoBind and target (ARRAY_BUFFER by default), takes a name distinct from every live name, and changes no store or binding |
| GLBuffers.GLBuffer.Copy | src/GLBuffer.hpp:55-85 | a new name with the same autoBind and target; with auto-binding it gets the same data and immutability as the other buffer, plus the same flags (immutable) or usage (mutable); the other buffer's store and every other store are kept, no buffer object appears for any other name, and the new buffer is left bound; without auto-binding it gets no buffer object and no store changes its contents; vertex attribute arrays, their pointers and the draws are unchanged |
| GLBuffers.GLBuffer.CopyStorageFrom | src/GLBuffer.hpp:65-84 | the branch on the queried immutability copies data and immutability, plus the flags or the usage; with auto-binding the buffer objects are exactly the old ones plus this buffer's and the other buffer's; vertex attribute arrays, their pointers and the draws are unchanged |
| GLBuffers.GLBuffer.CopyImmutableFrom | src/GLBuffer.hpp:70-76 | the immutable branch: the copy's store is immutable, with the other store's data and flags; vertex attribute arrays, their pointers and the draws are unchanged |
| GLBuffers.GLBuffer.CopyMutableFrom | src/GLBuffer.hpp:77-84 | the mutable branch: the copy's store is mutable, with the other store's data and usage; vertex attribute arrays, their pointers and the draws are unchanged |
| GLBuffers.GLBuffer.Destroy | src/GLBuffer.hpp:49-52 | the destructor: the name is deleted and no target stays bound to it |
| GLBuffers.GLBuffer.GetID | src/GLBuffer.hpp:87-90 | returns the buffer's name |
| GLBuffers.GLBuffer.SetTarget | src/GLBuffer.hpp:92-95 | changes only the stored target; name, stores and bindings are untouched |
| GLBuffers.GLBuffer.BindTarget | src/GLBuffer.hpp:97-101 | binds the buffer to t if and only if auto-binding is on; otherwise the context is unchanged |
| GLBuffers.GLBuffer.Bind | src/GLBuffer.hpp:103-106 | bind() is bind(target) |
| GLBuffers.GLBuffer.GetSize | src/GLBuffer.hpp:108-116 | after its bind, returns elemSize times the element count of the store bound to the target, which is this buffer's store under auto-binding |
| GLBuffers.GLBuffer.GetLength | src/GLBuffer.hpp:118-123 | the size divided by sizeof(T), which is exactly the element count of the bound store |
| GLBuffers.GLBuffer.SetMutableData | src/GLBuffer.hpp:125-129 | with auto-binding and a mutable store, the store becomes a mutable one holding data with the given usage, and the buffer is bound to its target |
| GLBuffers.GLBuffer.SetImmutableData | src/GLBuffer.hpp:131-135 | with auto-binding, a mutable store and non-empty data, the store becomes immutable with data and the given flags |
| GLBuffers.GLBuffer.ReadRange | src/GLBuffer.hpp:137-143 | returns size / sizeof(T) elements: the requested slice of the store bound to the target when the range lies inside it, value-initialised elements otherwise; it issues no bind |
| GLBuffers.GLBuffer.ReadData | src/GLBuffer.hpp:146-149 | returns the whole store bound to the target after bind(), which is this buffer's store under auto-binding |
| GLBuffers.GLBuffer.ModifyData | src/GLBuffer.hpp:152-156 | with auto-binding, a write within a writable store overwrites as many elements as data holds, from offset on, and keeps the length and all other elements; otherwise the contents are unchanged |
| ObjLoader.ScanLine | src/Object.cpp:86-123 | one iteration of the reading loop fails exactly on a badly formatted face, and keeps the three index lists of equal length |
| ObjLoader.ScanFrom | src/Object.cpp:84-124 | the reading loop keeps the three index lists of equal length |
| ObjLoader.Resolve | src/Object.cpp:126-141 | the resolution loop produces one position, UV and normal per recorded index |
| ObjLoader.LoadObjData | src/Object.cpp:64-144 | returns true exactly when the file opens and has no badly formatted face; then the outputs are the old contents followed by the resolved mesh; otherwise the outputs are untouched |
| ObjLoader.ReadLines | src/Object.cpp:84-124 | the reading loop succeeds exactly when the reading specification does, and then yields the tables and index lists it gives |
| ObjLoader.AppendResolved | src/Object.cpp:126-141 | the resolution loop appends to each output exactly the resolved entries, in index order |
| ObjLoader.Faces | src/Object.cpp:100-123 | the face lines of a file, each with at least three references |
| ObjLoader.FacesAreGood | src/Object.cpp:100-110 | when no face is badly formatted, the first three references of every face have three fields |
| ObjLoader.RefIndices | src/Object.cpp:112-122 | three recorded indices per face |
| ObjLoader.RefIndicesAt | src/Object.cpp:112-122 | recorded index 3k + j is the chosen field of reference j + 1 of face k: face order, then vertex0, vertex1, vertex2 |
| ObjLoader.ScanOkReadsAll | src/Object.cpp:84-124 | a reading loop that succeeds has read every line, so every line has the words the loader reads |
| ObjLoader.RejectedFaceStopsReading | src/Object.cpp:106-110 | whatever follows a rejected face, even an empty or short line, is never read: the file is loadable and the load fails |
| ObjLoader.ScanFailsIff | src/Object.cpp:106-110 | the reading loop gives up exactly when some face has one of its first three references without exactly three fields |
| ObjLoader.ScanPositions | src/Object.cpp:88-91 | the position table grows by exactly the `v` lines' triples, in file order |
| ObjLoader.ScanTexCoords | src/Object.cpp:92-95 | the UV table grows by exactly the `vt` lines' pairs, in file order |
| ObjLoader.ScanNormals | src/Object.cpp:96-99 | the normal table grows by exactly the `vn` lines' triples, in file order |
| ObjLoader.ScanStep | src/Object.cpp:84-124 | a successful reading loop accepts its first line, which is not a badly formatted face, and goes on from the tables that line gives |
| ObjLoader.ScanOkNoBadFace | src/Object.cpp:106-110 | when the reading loop succeeds no face is badly formatted |
| ObjLoader.ScanRefs | src/Object.cpp:112-122 | on success each index list grows by the recorded references of each line, line by line |
| ObjLoader.RefsAreFaceOrder | src/Object.cpp:100-123 | the references recorded line by line are those of the faces, in face order and then reference order |
| ObjLoader.ScanMatchesIndices | src/Object.cpp:100-123 | on success each index list grows by its field of the first three references of every face, in order |
| ObjLoader.UnknownLineIgnored | src/Object.cpp:88-123 | a line whose first word is not `v`, `vt`, `vn` or `f` can be inserted anywhere in any file the loop can read, including lines after a rejected face, without changing the result or whether every line is well formed |
| ObjLoader.ExtraReferencesIgnored | src/Object.cpp:102-104 | references after the third in a face line are never read: appending words to a face of any file the loop can read changes neither the result nor whether every line is well formed |
| ObjLoader.LoadFailsIff | src/Object.cpp:78-110 | the load fails exactly when the file cannot be opened or some face is badly formatted |
| ObjLoader.LoadShape | src/Object.cpp:112-141 | a successful load yields three outputs of equal length, three times the number of face lines |
| ObjLoader.LoadedTables | src/Object.cpp:84-141 | a successful load resolves tables equal to the `v`, `vt` and `vn` entries in file order, against index lists equal to the fields of the faces' first three references |
| ObjLoader.LoadPosition | src/Object.cpp:128-134 | output position 3k + j is the position named, 1-based, by the first field of reference j + 1 of face k, and that index is in range |
| ObjLoader.LoadTexCoord | src/Object.cpp:129-137 | output UV 3k + j is the texture coordinate named, 1-based, by the second field of reference j + 1 of face k, and that index is in range |
| ObjLoader.LoadNormal | src/Object.cpp:130-140 | output normal 3k + j is the normal named, 1-based, by the third field of reference j + 1 of face k, and that index is in range |
| Objects.Object.constructor | src/Object.cpp:32-35 | the shader is stored and the vertex buffer is a fresh, auto-binding ARRAY_BUFFER buffer; no store or binding changes |
| Objects.Object.FromVertices | src/Object.cpp:37-42 | the vertex buffer's store is a mutable DYNAMIC_DRAW store holding exactly the given vertices; vertex attribute arrays, their pointers and the draws are unchanged |
| Objects.Object.FromFile | src/Object.cpp:44-55 | the vertex buffer's store holds exactly the loaded positions (UVs and normals are dropped), or nothing when loading fails, as a mutable DYNAMIC_DRAW store; vertex attribute arrays, their pointers and the draws are unchanged |
| Objects.Object.GetVertexBuffer | src/Object.cpp:146-149 | returns the object's own buffer |
| Objects.Object.SetShader | src/Object.cpp:151-154 | replaces the shader and nothing else |
| Objects.Object.GetShader | src/Object.cpp:156-159 | returns the shader |
| Objects.Object.Render | src/Object.cpp:162-182 | appends one TRIANGLES draw from vertex 0 whose count is the number of vertices in the buffer; attribute 0 ends disabled and reads the object's buffer; the buffer ends bound to ARRAY_BUFFER and to its own target; no store contents change |
| Objects.RenderCalls | src/Object.cpp:167-181 | the GL calls render makes, on any well-formed context: the draw counts every element of the buffer's store, attribute 0 ends disabled and reading the buffer, the buffer ends bound to ARRAY_BUFFER and to its own target, and no store changes its contents |
| Input.RegisterAll | src/InputManager.cpp:48-52 | registering a list succeeds exactly when its keys are distinct and none is registered; it then adds exactly those keys; existing entries are never overwritten, and every added key is unpressed |
| Input.KeyUpdate | src/InputManager.cpp:89-101 | keys are never added or removed; a registered key takes the KeyDown/KeyUp state of an event about it, and every other entry is unchanged |
| Input.MouseUpdate | src/InputManager.cpp:103-113 | a mouse-motion event sets the position to (x, y) and the relative motion to (xrel, yrel); any other event leaves both |
| Input.ReplaySnoc | src/InputManager.cpp:87-101 | feeding the events one at a time: one more event is one more update |
| Input.ReplayLastEventDecides | src/InputManager.cpp:87-101 | over any event sequence, the set of keys never changes and each registered key ends in the state of the last keyboard event about it, or its initial state if none |
| Input.InputManager.constructor | src/InputManager.cpp:26-29 | no keys are registered; positions are (0, 0) |
| Input.InputManager.RegisterKey | src/InputManager.cpp:36-46 | a new key is added unpressed; a key already registered is fatal and its entry is kept |
| Input.InputManager.RegisterKeys | src/InputManager.cpp:48-52 | registers the keys in list order, stopping at the first fatal one, as RegisterAll states |
| Input.InputManager.IsKeyPressed | src/InputManager.cpp:62-73 | warns exactly for an unregistered key and then returns false; otherwise returns the stored state; the registry is not changed |
| Input.InputManager.GetMousePos | src/InputManager.cpp:75-79 | returns the stored position |
| Input.InputManager.GetMouseRelPos | src/InputManager.cpp:81-85 | returns the stored relative motion |
| Input.InputManager.UpdateKeyByEvent | src/InputManager.cpp:89-101 | the registry becomes KeyUpdate of the old registry and the event |
| Input.InputManager.UpdateMouseMovement | src/InputManager.cpp:103-113 | position and relative motion become MouseUpdate of the old values and the event |

## Left out

- **Integer widths.** Integer widths are not modelled. `GLuint`, `GLint`, `GLsizeiptr`, `size_t`, `unsigned int` and `int` are unbounded, so the conversions of a byte size between them (`src/GLBuffer.hpp:115`, `:120`) cannot wrap. Nor can SDL's 32-bit key and mouse fields.
- **Misaligned byte offsets and sizes.** GLBuffers.GLBuffer.ReadRange and GLBuffers.GLBuffer.ModifyData require byte offsets and sizes that are multiples of `sizeof(T)`. Stores hold whole elements, so a misaligned byte range is not modelled.
- **OBJ text and number parsing.** `std::getline`, `splitString`, `std::stof` and `std::stoi` are not modelled, nor are the exceptions the last two throw: a word carries its parsed values. Coordinates are an opaque type, not floats.
- **Undefined behaviour in the loader.**
  - A line with fewer words than the loader reads is excluded by a precondition. It applies only to the lines the reading loop reaches, those up to and including the first rejected face. Lines after that face are never read and may be anything.
  - An index outside its table is excluded by a precondition.
  - An empty line that the loop reaches (where `splitString` yields no word and `words[0]` is undefined) is excluded by the same precondition.
- **`&data[0]` on an empty vector.** `setMutableData`, `setImmutableData`, `readData` and `modifyData` take `&data[0]` even when the vector is empty, which is undefined behaviour. An example is `Object(path)` after a failed load. The model treats that case as passing no data.
- **The shader half of `render`.** `glUseProgram`, the `MVP` uniform lookup and upload, and the type, normalisation, stride and offset arguments of `glVertexAttribPointer` are not modelled. Objects.Object.Render takes no matrix. The shader is an opaque value, and the `Shader` class is not part of this model.
- **GL errors beyond those named on each function.** Not modelled: invalid enumerants, invalid storage flag combinations, buffer mapping, and the client-side arrays `glVertexAttribPointer` allows with no buffer bound.
- ObjLoader.LoadObjData: its three output vectors are separate values, so a call passing the same `std::vector<glm::vec3>` as `outVertices` and `outNormals`, which would interleave their `push_back`s (`src/Object.cpp:134`, `:140`), is not modelled. The only caller (`src/Object.cpp:51`) passes three distinct vectors.
- **Name allocation.** The model hands out increasing names and never reuses a deleted one, which GL permits.
- **Element types per context.** One context holds stores of a single element type.
- **Uninitialised `GLint` results.** `glGetBufferParameteriv` leaves its output unset when nothing is bound (`src/GLBuffer.hpp:66-68`, `:110-113`). GLBuffers.GLBuffer.GetSize, GLBuffers.GLBuffer.GetLength, GLBuffers.GLBuffer.ReadData and GLBuffers.GLBuffer.Copy therefore require something to be bound to the target after their bind: always true under auto-binding.
- **`initMousePos` and `mMouseMotionEvent`.** `initMousePos` (`src/InputManager.cpp:54-60`) only logs, so it is not modelled. `mMouseMotionEvent`, the stored copy of the last motion event, is read across calls only by `initMousePos`; `updateMouseMovement` (`src/InputManager.cpp:109-112`) reads back only the event it has just stored. It is not kept.
- **Initial mouse positions.** The zero initial positions assume the GLM of the time, whose `vec2` default constructor zero-initialises.
- **Logging and warnings.** These are not modelled, except that Input.InputManager.IsKeyPressed reports whether it warned.
- **The rest of the engine.** The event loop, window and context set-up, camera, timer and Lua scripting code (`Game`, `Camera`, `SimpleTimer`, `Script`) are not part of this model.
