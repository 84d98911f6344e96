# Resource management of the OpenGL rasterizer

This project models the resource-management core of the TensorFlow Graphics OpenGL rasterizer in Dafny. The core has three parts:

- **`ThreadSafeResourcePool<T>`**: a bounded last-in-first-out pool of owned resources. The rasterizer keeps its rendering contexts in it.
- **`EGLOffscreenContext`**: a headless EGL context. It owns one display connection, one pixel-buffer surface and one rendering context.
- **`gl_utils::Program`**: compiles shaders and links them into a GL program. Scoped cleanups delete or detach what a failed step leaves behind.

The EGL and GL drivers are not modelled. Each driver call becomes an oracle reply passed in as a parameter: the value the call returns, and whether an error is pending after it. Each operation returns, as its result, the ordered trace of driver calls it made. The contracts state ordering, guards and the handle ledger in terms of these traces. The ledger records which handles were created, attached, detached, linked and deleted on each exit path.

Files:

- `sequences.dfy` (module `Sequences`): two helpers for the shader loop of `Program::Create`.
  - `FirstFalse`: the first failing step of a chain, used for the shader loop of `Program::Create` (the six steps of EGL `Create` are written out as a chain of their own).
  - `Filter`: the subsequence of a trace that satisfies a predicate, with its lemmas.
- `resource_pool.dfy` (module `ResourcePool`):
  - the class `ThreadSafeResourcePool`;
  - the pure step functions `AcquireStep` and `ReturnStep`, which its methods are proved against;
  - `Run`, which runs a sequence of pool calls, for properties that span several calls.
- `egl_offscreen_context.dfy` (module `EglOffscreen`):
  - the class `EglOffscreenContext` with its three handle fields;
  - the driver oracle `EglDriver`;
  - the class `ThreadBinding`, the calling thread's current EGL binding, which the context reads and writes but does not own;
  - the plans of `Create` and of the destructor, and lemmas about them.
- `gl_utils.dfy` (module `GlUtils`):
  - the class `Program`, with its static `CompileShader` and `Create`;
  - the shader loop of `Create`, split into one iteration (`CompileAndAttachOne`) and the loop itself (`CompileAndAttach`);
  - the `Ledger` of a GL call trace, and lemmas about it.

Behaviour of the source that the model keeps as written:

- **A failed compile deletes the shader twice.** When `CompileShader` finds a failed compile status, it deletes the shader explicitly. The unreleased scoped cleanup then deletes it again. `CompileShader`'s contract makes this two-delete trace explicit.
- **A shader can leak.** When a GL error is pending right after `glCreateShader`, `CompileShader` returns before the scoped cleanup exists. A non-zero shader handle is then never deleted. The contract says that the trace is then the single creation call.
- **The log line in `ReturnResource` never runs.** It comes after the `return` of the null-resource branch. The model has no logging in any case.
- **A shader whose attach reports an error is not detached.** When an error is pending after `glAttachShader`, the attach call was made, and its delete cleanup is already pending. Whether the driver actually attached the shader is not visible here. Either way, its detach cleanup is never pushed. `Create`'s contract records the call among the attaches and not among the detaches.
- **A successful `Create` destroys the program `*program` held before.** Assigning the new `unique_ptr` runs `~Program` on the old one, which deletes its handle. This happens after the link and before the shader cleanups run.
- **`Release` queries the current context.** It calls `eglGetCurrentContext` whenever the held context is not the sentinel. So "no call" holds only for a sentinel context. When the held context is not current, `Release` makes exactly that query and nothing else.

## Model

| member | source | states |
|---|---|---|
| ResourcePool.ThreadSafeResourcePool.constructor | tensorflow_graphics/rendering/opengl/thread_safe_resource_pool.h:31-71 | a new pool is empty and respects its bound; the capacity argument defaults to 5; the creator is stored; nothing has been created or destroyed yet |
| ResourcePool.ThreadSafeResourcePool.AcquireResource | tensorflow_graphics/rendering/opengl/thread_safe_resource_pool.h:73-91 | the new pool, the caller's pointer, the status and the creator count are those of `AcquireStep`; the bound and non-null invariant is preserved; a successful acquire yields a non-null resource; nothing is destroyed |
| ResourcePool.ThreadSafeResourcePool.ReturnResource | tensorflow_graphics/rendering/opengl/thread_safe_resource_pool.h:93-108 | the new pool, the caller's pointer and the status are those of `ReturnStep`; a resource dropped because the pool is full is recorded as destroyed; the invariant is preserved; the creator is not called |
| ResourcePool.AcquireStep | tensorflow_graphics/rendering/opengl/thread_safe_resource_pool.h:78-89 | the creator is called exactly when the pool is empty, and then the pool stays empty and the status is true only if the creator succeeded with a non-null resource; on a non-empty pool acquire succeeds, hands out the last entry, and the pool shrinks by exactly that entry; the bound is preserved |
| ResourcePool.ReturnStep | tensorflow_graphics/rendering/opengl/thread_safe_resource_pool.h:97-107 | returning null fails and changes nothing; returning a resource succeeds and empties the caller's pointer; below capacity it is appended at the back; at capacity the pool is unchanged and the resource is destroyed; the bound and non-null invariant is preserved |
| ResourcePool.RunKeepsBounded | tensorflow_graphics/rendering/opengl/thread_safe_resource_pool.h:73-108 | after any sequence of acquires and returns the pool has at most `maximum_pool_size` entries, none null, and every resource handed out by a successful acquire is non-null |
| ResourcePool.ReturnThenAcquire | tensorflow_graphics/rendering/opengl/thread_safe_resource_pool.h:86-104 | a resource returned below capacity is the next one acquired, without calling the creator, and the pool is left as before the return |
| ResourcePool.RunReturns | tensorflow_graphics/rendering/opengl/thread_safe_resource_pool.h:103-104 | returning resources while there is room appends them in order and hands nothing out |
| ResourcePool.RunAcquires | tensorflow_graphics/rendering/opengl/thread_safe_resource_pool.h:86-89 | acquiring as many times as there are entries above a base pool hands them out in reverse order and never calls the creator |
| ResourcePool.LastInFirstOut | tensorflow_graphics/rendering/opengl/thread_safe_resource_pool.h:86-104 | returns followed by as many acquires give the resources back in reverse order of return and restore the pool |
| EglOffscreen.EglOffscreenContext.constructor | tensorflow_graphics/rendering/opengl/egl_offscreen_context.cc:21-24 | a new instance holds the sentinel for the display, the surface and the context |
| EglOffscreen.EglOffscreenContext.Create | tensorflow_graphics/rendering/opengl/egl_offscreen_context.cc:26-73 | the result is true exactly when all six steps succeed; the driver calls made are the prefix of the six-call plan up to and including the first failing step; the surface's attributes are the given width and height; surface and context use the chosen configuration, with no share context; the fields are set step by step, and a field a failed `Create` did not reach keeps its value |
| EglOffscreen.EglOffscreenContext.Destroy | tensorflow_graphics/rendering/opengl/egl_offscreen_context.cc:75-104 | the calls are the guarded teardown plan (context, surface, display), each attempted whatever earlier ones replied; a release is logged exactly when it was attempted and failed; nothing is reported to the caller |
| EglOffscreen.EglOffscreenContext.MakeCurrent | tensorflow_graphics/rendering/opengl/egl_offscreen_context.cc:106-110 | one `eglMakeCurrent` with the held surface as draw and read target and the held context; the result is true exactly when no EGL error is pending |
| EglOffscreen.EglOffscreenContext.Release | tensorflow_graphics/rendering/opengl/egl_offscreen_context.cc:112-117 | with a sentinel context: true, no call and no change; with a context that is not current: true, only the current-context query and no change; with the current context: the query and one `eglMakeCurrent` that clears surfaces and context, the result being true exactly when no EGL error is pending |
| EglOffscreen.CreateSucceedsIffAllSteps | tensorflow_graphics/rendering/opengl/egl_offscreen_context.cc:33-72 | `Create` succeeds if and only if every one of its six steps succeeds |
| EglOffscreen.CreateFailsFast | tensorflow_graphics/rendering/opengl/egl_offscreen_context.cc:33-71 | every step before the last one run succeeded; on failure the last step run is the failing one; on success all six ran |
| EglOffscreen.SurfaceBeforeContext | tensorflow_graphics/rendering/opengl/egl_offscreen_context.cc:49-71 | a surface is created only after exactly one configuration was chosen without error; a context is created only after a surface was created without error |
| EglOffscreen.ConfigFailureCreatesNothing | tensorflow_graphics/rendering/opengl/egl_offscreen_context.cc:49-55 | a failed configuration choice, or any count other than 1, fails `Create` with no surface or context call, and leaves those two fields as they were |
| EglOffscreen.SuccessHoldsAllHandles | tensorflow_graphics/rendering/opengl/egl_offscreen_context.cc:34-72 | after a successful `Create` the display, surface and context are all held |
| EglOffscreen.TeardownReversesCreate | tensorflow_graphics/rendering/opengl/egl_offscreen_context.cc:75-104 | after a successful `Create` the teardown destroys the context, then the surface, then terminates the display |
| EglOffscreen.TeardownReleasesWhatCreateHolds | tensorflow_graphics/rendering/opengl/egl_offscreen_context.cc:34-104 | on a fresh instance, each handle that `Create` leaves held, after success or after failure at any step, is released by the teardown, and no handle that is not held is |
| EglOffscreen.TeardownOfUnacquiredIsSilent | tensorflow_graphics/rendering/opengl/egl_offscreen_context.cc:75-104 | tearing down an instance that holds nothing makes no driver call |
| Sequences.FirstFalse | tensorflow_graphics/rendering/opengl/gl_utils.cc:79-82 | the index at which a fail-fast chain stops: every earlier element passes, and the element at that index (if any) fails |
| GlUtils.Program.constructor | tensorflow_graphics/rendering/opengl/gl_utils.cc:20 | a program owns the handle it is constructed with |
| GlUtils.Program.Destroy | tensorflow_graphics/rendering/opengl/gl_utils.cc:22 | destroying a program deletes exactly its handle, once |
| GlUtils.Program.GetHandle | tensorflow_graphics/rendering/opengl/gl_utils.cc:106 | returns the handle the program owns, which by `Create`'s contract is the handle `glCreateProgram` returned |
| GlUtils.Program.CompileShader | tensorflow_graphics/rendering/opengl/gl_utils.cc:24-62 | the stored index is the created handle; the result is true exactly when creation gives a non-zero handle and source, compile and status query raise no error and the status is success; a creation error or a zero handle makes only the creation call; on success the four calls leave the shader undeleted; on any other failure the last call deletes the shader; a failed status that reaches the explicit delete deletes it twice, any other failure once |
| GlUtils.ShaderCallsLedger | tensorflow_graphics/rendering/opengl/gl_utils.cc:24-62 | a shader compilation creates exactly one shader, as its first call, and makes no program call |
| GlUtils.Program.CompileAndAttachOne | tensorflow_graphics/rendering/opengl/gl_utils.cc:81-92 | one loop iteration goes on exactly when the shader compiles and its attach raises no error; it creates that one shader and attaches it only if it compiled; it pushes its delete cleanup once compiled and its detach cleanup only after an attach without error |
| GlUtils.Program.CompileAndAttach | tensorflow_graphics/rendering/opengl/gl_utils.cc:78-93 | the loop passes every shader exactly when none fails; shaders are created in input order up to and including the failing one and attached in order while they compile; the pending cleanups detach exactly the attached shaders that raised no error and delete every compiled shader |
| GlUtils.PendingCleanupsLedger | tensorflow_graphics/rendering/opengl/gl_utils.cc:83-92 | the cleanups pushed for fully attached shaders detach each of them exactly once, delete each of them, and do nothing else |
| GlUtils.StoppedLedger | tensorflow_graphics/rendering/opengl/gl_utils.cc:81-90 | when the loop stops at a shader, the pending cleanups detach the shaders before it and delete every compiled shader, including the stopping one when its attach failed |
| GlUtils.ShaderLoopStep | tensorflow_graphics/rendering/opengl/gl_utils.cc:79-93 | a shader that compiles and attaches keeps the loop's ledger: the shaders so far are created and attached in order, and their delete and detach cleanups are pending |
| GlUtils.ShaderLoopStop | tensorflow_graphics/rendering/opengl/gl_utils.cc:81-90 | a shader that fails to compile or attach is where the loop stops, and the ledger then holds the outcome stated for `CompileAndAttach` |
| GlUtils.ShaderLoopDone | tensorflow_graphics/rendering/opengl/gl_utils.cc:79-93 | a loop that passes the last shader has compiled and attached all of them, and their cleanups are pending |
| GlUtils.ExitLedger | tensorflow_graphics/rendering/opengl/gl_utils.cc:93-102 | on an exit after the program was created, whether the cleanups run before or after the program deletions: shaders created in order up to the failing one, attached in order while they compile, the fully attached ones each detached once, the link call only if every shader passed, exactly the given program deletions, and every compiled shader deleted |
| GlUtils.Program.Create | tensorflow_graphics/rendering/opengl/gl_utils.cc:64-104 | the first call creates the program; a zero handle returns false with no other call and no change; the result is true exactly when the handle is non-zero, every shader compiles and attaches, and linking raises no error; on success `*program` wraps the created handle, which is not deleted, and the program `*program` held before (if any) is deleted, exactly once; on failure `*program` keeps its value; a failure after the program exists ends by deleting it, exactly once, and deletes no other program; shaders are created and attached in input order, the attached shaders that raised no error are each detached once, every compiled shader is deleted, and linking happens exactly when every shader was attached |

## Left out

- The `absl::Mutex` of the pool is not modelled. Each pool method runs as one atomic step, which is what holding the lock for the whole body gives a caller.
- The native EGL and GL calls, and `CreateInitializedEGLDisplay` / `TerminateInitializedEGLDisplay`, are not modelled. Their effects cannot be seen here, so each call is an oracle reply given as a parameter, and the model records the call in the returned trace.
- `egl_util.h` and `gl_macros.h` are not part of this model. The `RETURN_FALSE_IF_EGL_ERROR` / `RETURN_FALSE_IF_GL_ERROR` checks are modelled as "an error is pending after this call", which returns false from the enclosing function.
- `std::cerr` logging and the shader info-log text are left out; they are output only. The destructor's `reported` result records which releases would be logged.
- The link status of the program is never queried by the source. Only a GL error after `glLinkProgram` is modelled.
- The model runs the cleanups left in `shader_cleanups` in the order they were pushed. GlUtils.Program.Create states the detaches as a multiset and the deletes as membership, so the contract does not depend on that order.
- A second `Create` on the same `EGLOffscreenContext` is modelled only as the code behaves: it overwrites the handle fields. No stronger property is stated for it.
- The three EGL handle types (display, surface, context) share one `Handle` datatype, with a sentinel and a held identifier.
- The `EGLConfig` that `eglChooseConfig` writes is an oracle value; the model does not check that the driver returned a valid configuration.
- EglOffscreen.EglOffscreenContext.MakeCurrent: whether the thread binding changes is given by the driver's returned value, and the result only by the pending-error reply, as the source checks only the error state.
- ResourcePool.ThreadSafeResourcePool.AcquireResource: what the caller's pointer held before the call is not modelled. A successful acquire overwrites it, and the model does not track the old resource being released.
- `rasterizer_test.py` and `gl_utils_test.cc` are not modelled: they test tensor shapes, floating-point results and rendered pixels of code outside this core.
- `gl_utils.h` holds only declarations; the behaviour it documents is modelled from `gl_utils.cc`.
