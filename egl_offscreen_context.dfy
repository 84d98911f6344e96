/** The headless EGL rendering context: one display connection, one pixel
    buffer surface and one rendering context per instance. The EGL driver
    is not modelled; each driver call is an oracle reply given as a
    parameter, and each operation returns the driver calls it made, in
    order, so that ordering, guards and teardown coverage can be stated. */
module EglOffscreen {
  /** An EGL display, surface or context handle: the "no resource" sentinel
      (`EGL_NO_DISPLAY`, `EGL_NO_SURFACE`, `EGL_NO_CONTEXT`) or a driver object. */
  datatype Handle = NoResource | Held(id: nat)

  /** Attribute names and the list terminator of the EGL attribute-list protocol. */
  const EglNone: int := 0x3038
  const EglHeight: int := 0x3056
  const EglWidth: int := 0x3057

  /** `Create` asks the driver for exactly this many frame buffer configurations. */
  const RequestedNumConfigs: int := 1

  /** A call into the driver (or into the display provider), with its arguments. */
  datatype EglCall =
    | CreateInitializedDisplay
    | Initialize(display: Handle)
    | BindApi(api: nat)
    | ChooseConfig(display: Handle, attributes: seq<int>, requested: int)
    | CreatePbufferSurface(display: Handle, config: nat, attributes: seq<int>)
    | CreateContext(display: Handle, config: nat, shareContext: Handle, attributes: seq<int>)
    | DestroyContext(display: Handle, context: Handle)
    | DestroySurface(display: Handle, surface: Handle)
    | TerminateDisplay(display: Handle)
    | GetCurrentContext
    | MakeCurrent(display: Handle, draw: Handle, read: Handle, context: Handle)

  /** A driver reply: the value the call returns, and whether the driver's
      error state is other than `EGL_SUCCESS` right after it (what the error
      check wrapped around the call looks at). */
  datatype Reply<V> = Reply(value: V, error: bool)

  /** The driver's replies to the calls of one `Create`. */
  datatype EglDriver = EglDriver(
    display: Handle,
    initialize: Reply<bool>,
    bindApi: Reply<bool>,
    chooseConfig: Reply<bool>,
    returnedNumConfigs: int,
    config: nat,
    surface: Reply<Handle>,
    context: Reply<Handle>)

  /** The six steps of `Create`, in the order the source runs them. */
  datatype CreateStep =
    | AcquireDisplay | InitializeDisplay | BindRenderingApi
    | ChooseFrameBufferConfig | CreateSurface | CreateRenderingContext

  const CreateSteps: seq<CreateStep> := [
    AcquireDisplay, InitializeDisplay, BindRenderingApi,
    ChooseFrameBufferConfig, CreateSurface, CreateRenderingContext]

  /** Whether `Create` goes on after step `s`, given the driver's replies. */
  predicate StepSucceeds(d: EglDriver, s: CreateStep)
  {
    match s
    case AcquireDisplay => d.display.Held?
    case InitializeDisplay => !d.initialize.error && d.initialize.value
    case BindRenderingApi => !d.bindApi.error && d.bindApi.value
    case ChooseFrameBufferConfig =>
      !d.chooseConfig.error && d.chooseConfig.value && d.returnedNumConfigs == RequestedNumConfigs
    case CreateSurface => !d.surface.error && d.surface.value.Held?
    case CreateRenderingContext => !d.context.error && d.context.value.Held?
  }

  /** The index in `CreateSteps` of the step at which `Create` fails, or 6. */
  function FailedStep(d: EglDriver): nat
  {
    if !StepSucceeds(d, AcquireDisplay) then 0
    else if !StepSucceeds(d, InitializeDisplay) then 1
    else if !StepSucceeds(d, BindRenderingApi) then 2
    else if !StepSucceeds(d, ChooseFrameBufferConfig) then 3
    else if !StepSucceeds(d, CreateSurface) then 4
    else if !StepSucceeds(d, CreateRenderingContext) then 5
    else 6
  }

  /** How many of the six steps `Create` runs. */
  function StepsRun(d: EglDriver): nat
  {
    if FailedStep(d) < |CreateSteps| then FailedStep(d) + 1 else |CreateSteps|
  }

  predicate CreateSucceeds(d: EglDriver)
  {
    FailedStep(d) == |CreateSteps|
  }

  /** The attribute list of the pixel buffer surface. */
  function PbufferAttributes(width: int, height: int): seq<int>
  {
    [EglWidth, width, EglHeight, height, EglNone]
  }

  /** The six driver calls of a `Create` that runs to the end, in order. */
  function CreatePlan(d: EglDriver, width: int, height: int, api: nat, configAttributes: seq<int>, contextAttributes: seq<int>): seq<EglCall>
  {
    [ CreateInitializedDisplay,
      Initialize(d.display),
      BindApi(api),
      ChooseConfig(d.display, configAttributes, RequestedNumConfigs),
      CreatePbufferSurface(d.display, d.config, PbufferAttributes(width, height)),
      CreateContext(d.display, d.config, NoResource, contextAttributes) ]
  }

  /** The three handle fields of an instance. */
  datatype Handles = Handles(display: Handle, surface: Handle, context: Handle)

  const Unacquired: Handles := Handles(NoResource, NoResource, NoResource)

  /** The handle fields after `Create`: the display is always overwritten,
      the surface once the surface step runs, the context once the context
      step runs. A field a failed `Create` did not reach keeps its value. */
  function AfterCreate(d: EglDriver, before: Handles): Handles
  {
    Handles(
      d.display,
      if StepsRun(d) >= 5 then d.surface.value else before.surface,
      if StepsRun(d) == 6 then d.context.value else before.context)
  }

  /** The guarded release calls of the destructor, in the order it makes them. */
  function TeardownPlan(h: Handles): seq<EglCall>
  {
    (if h.display.Held? && h.context.Held? then [DestroyContext(h.display, h.context)] else []) +
    (if h.display.Held? && h.surface.Held? then [DestroySurface(h.display, h.surface)] else []) +
    (if h.display.Held? then [TerminateDisplay(h.display)] else [])
  }

  /** `Create` succeeds exactly when all six steps do. */
  lemma CreateSucceedsIffAllSteps(d: EglDriver)
    ensures CreateSucceeds(d) <==> forall s: CreateStep :: StepSucceeds(d, s)
  {
  }

  /** Fail fast: every step before the one that fails succeeded, the failing
      step is the last one run, and no later step runs. */
  lemma CreateFailsFast(d: EglDriver)
    ensures 1 <= StepsRun(d) <= 6
    ensures forall i :: 0 <= i < StepsRun(d) - 1 ==> StepSucceeds(d, CreateSteps[i])
    ensures !CreateSucceeds(d) ==> !StepSucceeds(d, CreateSteps[StepsRun(d) - 1])
    ensures CreateSucceeds(d) ==> StepsRun(d) == 6
  {
  }

  /** Ordering: the context is created only after a surface was created
      without error, and the surface only after exactly one configuration
      was chosen. */
  lemma SurfaceBeforeContext(d: EglDriver, width: int, height: int, api: nat, configAttributes: seq<int>, contextAttributes: seq<int>, c: EglCall)
    requires c in CreatePlan(d, width, height, api, configAttributes, contextAttributes)[..StepsRun(d)]
    ensures c.CreatePbufferSurface? ==>
      d.display.Held? && !d.chooseConfig.error && d.chooseConfig.value && d.returnedNumConfigs == 1
    ensures c.CreateContext? ==>
      d.display.Held? && d.returnedNumConfigs == 1 && !d.surface.error && d.surface.value.Held?
  {
    var plan := CreatePlan(d, width, height, api, configAttributes, contextAttributes);
    var i :| 0 <= i < StepsRun(d) && plan[..StepsRun(d)][i] == c;
  }

  /** A configuration negotiation that fails, or that yields any number of
      configurations other than one, fails `Create` before a surface or a
      context is created, and leaves those two fields as they were. */
  lemma ConfigFailureCreatesNothing(d: EglDriver, width: int, height: int, api: nat, configAttributes: seq<int>, contextAttributes: seq<int>, before: Handles)
    requires d.chooseConfig.error || !d.chooseConfig.value || d.returnedNumConfigs != RequestedNumConfigs
    ensures !CreateSucceeds(d)
    ensures StepsRun(d) <= 4
    ensures forall c :: c in CreatePlan(d, width, height, api, configAttributes, contextAttributes)[..StepsRun(d)] ==>
      !c.CreatePbufferSurface? && !c.CreateContext?
    ensures AfterCreate(d, before).surface == before.surface
    ensures AfterCreate(d, before).context == before.context
  {
    var plan := CreatePlan(d, width, height, api, configAttributes, contextAttributes);
    forall c | c in plan[..StepsRun(d)] ensures !c.CreatePbufferSurface? && !c.CreateContext? {
      var i :| 0 <= i < StepsRun(d) && plan[i] == c;
    }
  }

  /** After a successful `Create` all three handles are held. */
  lemma SuccessHoldsAllHandles(d: EglDriver, before: Handles)
    requires CreateSucceeds(d)
    ensures AfterCreate(d, before).display.Held?
    ensures AfterCreate(d, before).surface.Held?
    ensures AfterCreate(d, before).context.Held?
  {
    CreateSucceedsIffAllSteps(d);
    assert StepSucceeds(d, AcquireDisplay) && StepSucceeds(d, CreateSurface) && StepSucceeds(d, CreateRenderingContext);
  }

  /** Tearing down a successfully created instance releases the context,
      then the surface, then the display. */
  lemma TeardownReversesCreate(d: EglDriver, before: Handles)
    requires CreateSucceeds(d)
    ensures var h := AfterCreate(d, before);
      TeardownPlan(h) == [DestroyContext(h.display, h.context), DestroySurface(h.display, h.surface), TerminateDisplay(h.display)]
  {
    SuccessHoldsAllHandles(d, before);
  }

  /** No leak: on a fresh instance, whatever `Create` leaves held (after
      success or after failure at any step) is released by the teardown. */
  lemma TeardownReleasesWhatCreateHolds(d: EglDriver)
    ensures var h := AfterCreate(d, Unacquired);
      (h.context.Held? <==> DestroyContext(h.display, h.context) in TeardownPlan(h)) &&
      (h.surface.Held? <==> DestroySurface(h.display, h.surface) in TeardownPlan(h)) &&
      (h.display.Held? <==> TerminateDisplay(h.display) in TeardownPlan(h))
  {
  }

  /** Tearing down an instance that holds nothing makes no driver call. */
  lemma TeardownOfUnacquiredIsSilent()
    ensures TeardownPlan(Unacquired) == []
  {
  }

  /** The calling thread's current EGL binding: driver state that this
      component reads and writes but does not own. */
  class ThreadBinding {
    var context: Handle
    var draw: Handle
    var read: Handle

    constructor(context: Handle, draw: Handle, read: Handle)
      ensures this.context == context && this.draw == draw && this.read == read
    {
      this.context, this.draw, this.read := context, draw, read;
    }
  }

  /** `EGLOffscreenContext`. */
  class EglOffscreenContext {
    var display: Handle
    var surface: Handle
    var context: Handle

    function State(): Handles
      reads this
    {
      Handles(display, surface, context)
    }

    /** A new instance holds the sentinel in all three fields. */
    constructor()
      ensures State() == Unacquired
    {
      display, surface, context := NoResource, NoResource, NoResource;
    }

    /** `Create`: runs the six steps in order and stops at the first that
        fails; `calls` are the driver calls made. */
    method Create(width: int, height: int, api: nat, configAttributes: seq<int>, contextAttributes: seq<int>, d: EglDriver)
      returns (ok: bool, calls: seq<EglCall>)
      modifies this
      ensures ok <==> CreateSucceeds(d)
      ensures calls == CreatePlan(d, width, height, api, configAttributes, contextAttributes)[..StepsRun(d)]
      ensures State() == AfterCreate(d, old(State()))
    {
      ghost var plan := CreatePlan(d, width, height, api, configAttributes, contextAttributes);
      calls := [CreateInitializedDisplay];
      display := d.display;
      if display == NoResource {
        return false, calls;
      }

      calls := calls + [Initialize(display)];
      if d.initialize.error || !d.initialize.value {
        return false, calls;
      }

      calls := calls + [BindApi(api)];
      if d.bindApi.error || !d.bindApi.value {
        return false, calls;
      }

      var config := d.config;
      calls := calls + [ChooseConfig(display, configAttributes, RequestedNumConfigs)];
      if d.chooseConfig.error || d.returnedNumConfigs != RequestedNumConfigs || !d.chooseConfig.value {
        return false, calls;
      }

      calls := calls + [CreatePbufferSurface(display, config, PbufferAttributes(width, height))];
      surface := d.surface.value;
      if d.surface.error || surface == NoResource {
        return false, calls;
      }

      calls := calls + [CreateContext(display, config, NoResource, contextAttributes)];
      context := d.context.value;
      if d.context.error || context == NoResource {
        return false, calls;
      }
      assert calls == plan;
      ok := true;
    }

    /** The destructor: every guarded release is attempted whatever the
        earlier ones replied; `replies` are the driver's results for the
        three releases, and `reported` the calls whose failure is logged.
        Nothing is reported back to the caller. */
    method Destroy(replies: (bool, bool, bool)) returns (calls: seq<EglCall>, reported: seq<EglCall>)
      ensures calls == TeardownPlan(State())
      ensures forall c :: c in reported ==> c in calls
      ensures DestroyContext(display, context) in reported <==> DestroyContext(display, context) in calls && !replies.0
      ensures DestroySurface(display, surface) in reported <==> DestroySurface(display, surface) in calls && !replies.1
      ensures TerminateDisplay(display) in reported <==> TerminateDisplay(display) in calls && !replies.2
    {
      calls, reported := [], [];
      if display != NoResource && context != NoResource {
        calls := calls + [DestroyContext(display, context)];
        if !replies.0 {
          reported := reported + [DestroyContext(display, context)];
        }
      }
      if display != NoResource && surface != NoResource {
        calls := calls + [DestroySurface(display, surface)];
        if !replies.1 {
          reported := reported + [DestroySurface(display, surface)];
        }
      }
      if display != NoResource {
        calls := calls + [TerminateDisplay(display)];
        if !replies.2 {
          reported := reported + [TerminateDisplay(display)];
        }
      }
    }

    /** `MakeCurrent`: binds the surface as both draw and read target,
        together with the context. Only the driver's error state decides
        the result. */
    method MakeCurrent(thread: ThreadBinding, reply: Reply<bool>) returns (ok: bool, call: EglCall)
      modifies thread
      ensures call == EglCall.MakeCurrent(display, surface, surface, context)
      ensures ok == !reply.error
      ensures reply.value ==> thread.context == context && thread.draw == surface && thread.read == surface
      ensures !reply.value ==> unchanged(thread)
    {
      call := EglCall.MakeCurrent(display, surface, surface, context);
      if reply.value {
        thread.context, thread.draw, thread.read := context, surface, surface;
      }
      ok := !reply.error;
    }

    /** `Release`: clears the thread's binding only when the held context is
        the current one; otherwise it succeeds, having called at most the
        current-context query. */
    method Release(thread: ThreadBinding, reply: Reply<bool>) returns (ok: bool, calls: seq<EglCall>)
      modifies thread
      ensures context == NoResource ==> ok && calls == [] && unchanged(thread)
      ensures context != NoResource && context != old(thread.context) ==>
        ok && calls == [GetCurrentContext] && unchanged(thread)
      ensures context != NoResource && context == old(thread.context) ==>
        calls == [GetCurrentContext, EglCall.MakeCurrent(display, NoResource, NoResource, NoResource)] &&
        ok == !reply.error &&
        (reply.value ==> thread.context == NoResource && thread.draw == NoResource && thread.read == NoResource) &&
        (!reply.value ==> unchanged(thread))
    {
      calls := [];
      ok := true;
      if context != NoResource {
        calls := calls + [GetCurrentContext];
        if context == thread.context {
          calls := calls + [EglCall.MakeCurrent(display, NoResource, NoResource, NoResource)];
          if reply.value {
            thread.context, thread.draw, thread.read := NoResource, NoResource, NoResource;
          }
          ok := !reply.error;
        }
      }
    }
  }
}
