/** Shader compilation and program creation. The GL driver is not
    modelled: each GL call is an oracle reply given as a parameter, and each
    operation returns the GL calls it made, in order. The trace is the
    ledger of handles: which shaders and programs were created, attached,
    detached and deleted on each exit path. */
module GlUtils {
  import opened Sequences

  /** A GL call with its arguments; the creation calls also record the
      handle the driver returned (0 when creation failed). */
  datatype GlCall =
    | CreateShader(shaderType: int, result: nat)
    | ShaderSource(shader: nat, code: string)
    | Compile(shader: nat)
    | QueryCompileStatus(shader: nat)
    | QueryInfoLogLength(shader: nat)
    | QueryInfoLog(shader: nat)
    | DeleteShader(shader: nat)
    | CreateProgram(result: nat)
    | AttachShader(program: nat, shader: nat)
    | DetachShader(program: nat, shader: nat)
    | LinkProgram(program: nat)
    | DeleteProgram(program: nat)

  /** The GL calls of shader compilation after which the GL error state is
      checked, in the order they are made. An error after the explicit
      `glDeleteShader` of the failure branch (`DeleteStep`) changes no call:
      the branch returns false either way and the cleanup deletes the shader
      again, so no contract depends on it. */
  datatype ShaderStep =
    | CreateStep | SourceStep | CompileStep | StatusStep
    | LogLengthStep | InfoLogStep | DeleteStep

  /** The driver's replies for one shader: the handle `glCreateShader`
      returns, the steps after which a GL error is pending, the compile
      status, and whether an error is pending after attaching it. */
  datatype ShaderReplies = ShaderReplies(handle: nat, errors: set<ShaderStep>, compiled: bool, attachError: bool)

  /** The driver's replies for the program: the handle `glCreateProgram`
      returns, and whether an error is pending after linking. */
  datatype ProgramReplies = ProgramReplies(handle: nat, linkError: bool)

  /** A shader to compile: its source code and its GL shader type. */
  datatype Shader = Shader(code: string, shaderType: int)

  /** Compilation succeeds: a handle, no error up to the status query, and a
      successful compile status. */
  predicate CompileSucceeds(r: ShaderReplies)
  {
    r.handle != 0 && CreateStep !in r.errors && SourceStep !in r.errors &&
    CompileStep !in r.errors && StatusStep !in r.errors && r.compiled
  }

  /** Compilation fails on its status and gets as far as the explicit
      `glDeleteShader` of the failure branch. */
  predicate ReachesExplicitDelete(r: ShaderReplies)
  {
    r.handle != 0 && CreateStep !in r.errors && SourceStep !in r.errors &&
    CompileStep !in r.errors && StatusStep !in r.errors && !r.compiled &&
    LogLengthStep !in r.errors && InfoLogStep !in r.errors
  }

  /** One iteration of the shader loop of `Program::Create` goes on to the next. */
  predicate PhaseSucceeds(r: ShaderReplies)
  {
    CompileSucceeds(r) && !r.attachError
  }

  predicate IsShaderCall(c: GlCall)
  {
    c.CreateShader? || c.ShaderSource? || c.Compile? || c.QueryCompileStatus? ||
    c.QueryInfoLogLength? || c.QueryInfoLog? || c.DeleteShader?
  }

  predicate IsCreateShader(c: GlCall) { c.CreateShader? }
  predicate IsAttach(c: GlCall) { c.AttachShader? }
  predicate IsDetach(c: GlCall) { c.DetachShader? }

  /** The index of the shader at which the loop of `Program::Create` stops,
      or the number of shaders when it runs to the end. */
  function FailedShader(rs: seq<ShaderReplies>): nat
  {
    FirstFalse(rs, PhaseSucceeds)
  }

  /** How many shaders the loop starts compiling. */
  function ShadersStarted(rs: seq<ShaderReplies>): nat
  {
    if FailedShader(rs) < |rs| then FailedShader(rs) + 1 else |rs|
  }

  /** How many shaders the loop compiles successfully (each then gets an attach). */
  function ShadersCompiled(rs: seq<ShaderReplies>): nat
  {
    var k := FirstFalse(rs, PhaseSucceeds);
    if k < |rs| && CompileSucceeds(rs[k]) then k + 1 else k
  }

  function CreationCalls(shaders: seq<Shader>, rs: seq<ShaderReplies>): seq<GlCall>
    requires |shaders| == |rs|
  {
    seq(|rs|, j requires 0 <= j < |rs| => CreateShader(shaders[j].shaderType, rs[j].handle))
  }

  function AttachCalls(program: nat, rs: seq<ShaderReplies>): seq<GlCall>
  {
    seq(|rs|, j requires 0 <= j < |rs| => AttachShader(program, rs[j].handle))
  }

  function DetachCalls(program: nat, rs: seq<ShaderReplies>): seq<GlCall>
  {
    seq(|rs|, j requires 0 <= j < |rs| => DetachShader(program, rs[j].handle))
  }

  /** The cleanups that `Program::Create` holds after attaching the shaders
      `rs`: for each, a delete and a detach, in the order they were pushed. */
  function PendingCleanups(program: nat, rs: seq<ShaderReplies>): seq<GlCall>
  {
    if rs == [] then []
    else
      PendingCleanups(program, rs[..|rs| - 1]) +
      [DeleteShader(rs[|rs| - 1].handle), DetachShader(program, rs[|rs| - 1].handle)]
  }

  predicate IsLink(c: GlCall) { c.LinkProgram? }
  predicate IsDeleteProgram(c: GlCall) { c.DeleteProgram? }

  /** The ledger of a call trace: its shader creations, attaches, detaches,
      links and program deletions, each in trace order. */
  datatype Ledger = Ledger(
    created: seq<GlCall>, attached: seq<GlCall>, detached: seq<GlCall>,
    linked: seq<GlCall>, deletedPrograms: seq<GlCall>)
  {
    function Plus(other: Ledger): Ledger
    {
      Ledger(created + other.created, attached + other.attached, detached + other.detached,
             linked + other.linked, deletedPrograms + other.deletedPrograms)
    }
  }

  const EmptyLedger := Ledger([], [], [], [], [])

  function LedgerOf(calls: seq<GlCall>): Ledger
  {
    Ledger(Filter(calls, IsCreateShader), Filter(calls, IsAttach), Filter(calls, IsDetach),
           Filter(calls, IsLink), Filter(calls, IsDeleteProgram))
  }

  /** The ledger of two traces run one after the other. */
  lemma LedgerConcat(a: seq<GlCall>, b: seq<GlCall>)
    ensures LedgerOf(a + b) == LedgerOf(a).Plus(LedgerOf(b))
  {
    FilterConcat(a, b, IsCreateShader);
    FilterConcat(a, b, IsAttach);
    FilterConcat(a, b, IsDetach);
    FilterConcat(a, b, IsLink);
    FilterConcat(a, b, IsDeleteProgram);
  }

  /** The ledger of a trace of shader deletions and detaches. */
  lemma CleanupLedger(s: seq<GlCall>)
    requires forall c :: c in s ==> c.DeleteShader? || c.DetachShader?
    ensures LedgerOf(s) == Ledger([], [], Filter(s, IsDetach), [], [])
  {
    FilterNone(s, IsCreateShader);
    FilterNone(s, IsAttach);
    FilterNone(s, IsLink);
    FilterNone(s, IsDeleteProgram);
  }

  /** Every shader of `rs` is deleted somewhere in `s`. */
  predicate DeletesShaders(s: seq<GlCall>, rs: seq<ShaderReplies>)
  {
    forall j :: 0 <= j < |rs| ==> DeleteShader(rs[j].handle) in s
  }

  lemma DeletesShadersAfter(before: seq<GlCall>, s: seq<GlCall>, rs: seq<ShaderReplies>)
    requires DeletesShaders(s, rs)
    ensures DeletesShaders(before + s, rs)
  {
  }

  lemma DeletesShadersBefore(s: seq<GlCall>, after: seq<GlCall>, rs: seq<ShaderReplies>)
    requires DeletesShaders(s, rs)
    ensures DeletesShaders(s + after, rs)
  {
  }

  /** The pending cleanups delete every attached shader and detach each of
      them once, and touch nothing else. */
  lemma {:induction false} PendingCleanupsLedger(program: nat, rs: seq<ShaderReplies>)
    ensures LedgerOf(PendingCleanups(program, rs)) == Ledger([], [], DetachCalls(program, rs), [], [])
    ensures DeletesShaders(PendingCleanups(program, rs), rs)
    ensures forall c :: c in PendingCleanups(program, rs) ==> c.DeleteShader? || c.DetachShader?
  {
    if rs != [] {
      var front := rs[..|rs| - 1];
      var h := rs[|rs| - 1].handle;
      PendingCleanupsLedger(program, front);
      var tail := [DeleteShader(h), DetachShader(program, h)];
      FilterConcat(PendingCleanups(program, front), tail, IsDetach);
      assert Filter(tail, IsDetach) == [DetachShader(program, h)];
      assert DetachCalls(program, rs) == DetachCalls(program, front) + [DetachShader(program, h)];
      forall j | 0 <= j < |rs| ensures DeleteShader(rs[j].handle) in PendingCleanups(program, rs) {
        if j < |front| {
          assert rs[j] == front[j];
        }
      }
      CleanupLedger(PendingCleanups(program, rs));
    }
  }

  /** The cleanups pending when the shader loop stops at shader `i`: those
      of the shaders before it, plus the delete of shader `i` when it
      compiled but its attach failed. */
  lemma StoppedLedger(h: nat, rs: seq<ShaderReplies>, i: nat, pushed: seq<GlCall>)
    requires i < |rs| && FirstFalse(rs, PhaseSucceeds) == i
    requires pushed == if CompileSucceeds(rs[i]) then [DeleteShader(rs[i].handle)] else []
    ensures var cleanups := PendingCleanups(h, rs[..i]) + pushed;
      LedgerOf(cleanups) == Ledger([], [], DetachCalls(h, rs[..FailedShader(rs)]), [], []) &&
      DeletesShaders(cleanups, rs[..ShadersCompiled(rs)])
  {
    PendingCleanupsLedger(h, rs[..i]);
    var cleanups := PendingCleanups(h, rs[..i]) + pushed;
    FilterConcat(PendingCleanups(h, rs[..i]), pushed, IsDetach);
    CleanupLedger(cleanups);
    forall j | 0 <= j < ShadersCompiled(rs) ensures DeleteShader(rs[..ShadersCompiled(rs)][j].handle) in cleanups {
      if j < i {
        assert rs[..i][j] == rs[j];
      }
    }
  }

  /** The expected creations and attaches of `i + 1` shaders extend those
      of `i` by the calls of shader `i`. */
  lemma LedgerCallsSnoc(shaders: seq<Shader>, rs: seq<ShaderReplies>, h: nat, i: nat)
    requires |rs| == |shaders| && i < |rs|
    ensures CreationCalls(shaders[..i + 1], rs[..i + 1]) ==
      CreationCalls(shaders[..i], rs[..i]) + [CreateShader(shaders[i].shaderType, rs[i].handle)]
    ensures AttachCalls(h, rs[..i + 1]) == AttachCalls(h, rs[..i]) + [AttachShader(h, rs[i].handle)]
  {
  }

  /** The expected creations and attaches when the shader loop stops at
      shader `i`: shader `i` was created, and attached when it compiled. */
  lemma StoppedCalls(shaders: seq<Shader>, rs: seq<ShaderReplies>, h: nat, i: nat)
    requires |rs| == |shaders| && i < |rs| && FirstFalse(rs, PhaseSucceeds) == i
    ensures CreationCalls(shaders[..ShadersStarted(rs)], rs[..ShadersStarted(rs)]) ==
      CreationCalls(shaders[..i], rs[..i]) + [CreateShader(shaders[i].shaderType, rs[i].handle)]
    ensures AttachCalls(h, rs[..ShadersCompiled(rs)]) ==
      AttachCalls(h, rs[..i]) + if CompileSucceeds(rs[i]) then [AttachShader(h, rs[i].handle)] else []
  {
    LedgerCallsSnoc(shaders, rs, h, i);
  }

  /** What the shader loop of `Program::Create` keeps before shader `i`:
      the shaders before it compiled and attached, their cleanups pending,
      and each created and attached once, in order. */
  ghost predicate ShaderLoopInvariant(shaders: seq<Shader>, rs: seq<ShaderReplies>, h: nat, i: nat,
                                      calls: seq<GlCall>, cleanups: seq<GlCall>)
  {
    |rs| == |shaders| && i <= |rs| &&
    (forall j :: 0 <= j < i ==> PhaseSucceeds(rs[j])) &&
    cleanups == PendingCleanups(h, rs[..i]) &&
    LedgerOf(calls) == Ledger(CreationCalls(shaders[..i], rs[..i]), AttachCalls(h, rs[..i]), [], [], [])
  }

  /** What the shader loop has done when it ends, by stopping at a shader or
      past the last one. */
  ghost predicate ShaderLoopOutcome(shaders: seq<Shader>, rs: seq<ShaderReplies>, h: nat,
                                    calls: seq<GlCall>, cleanups: seq<GlCall>)
    requires |rs| == |shaders|
  {
    LedgerOf(calls) ==
      Ledger(CreationCalls(shaders[..ShadersStarted(rs)], rs[..ShadersStarted(rs)]),
             AttachCalls(h, rs[..ShadersCompiled(rs)]), [], [], []) &&
    LedgerOf(cleanups) == Ledger([], [], DetachCalls(h, rs[..FailedShader(rs)]), [], []) &&
    DeletesShaders(cleanups, rs[..ShadersCompiled(rs)])
  }

  /** A shader that compiles and attaches keeps the loop invariant. */
  lemma ShaderLoopStep(shaders: seq<Shader>, rs: seq<ShaderReplies>, h: nat, i: nat,
                       calls: seq<GlCall>, cleanups: seq<GlCall>, phaseCalls: seq<GlCall>)
    requires ShaderLoopInvariant(shaders, rs, h, i, calls, cleanups) && i < |rs| && PhaseSucceeds(rs[i])
    requires LedgerOf(phaseCalls) == Ledger([CreateShader(shaders[i].shaderType, rs[i].handle)], [AttachShader(h, rs[i].handle)], [], [], [])
    ensures ShaderLoopInvariant(shaders, rs, h, i + 1, calls + phaseCalls,
                                cleanups + [DeleteShader(rs[i].handle), DetachShader(h, rs[i].handle)])
  {
    LedgerConcat(calls, phaseCalls);
    LedgerCallsSnoc(shaders, rs, h, i);
    assert rs[..i + 1][..i] == rs[..i];
  }

  /** A shader that fails to compile or to attach ends the loop. */
  lemma ShaderLoopStop(shaders: seq<Shader>, rs: seq<ShaderReplies>, h: nat, i: nat,
                       calls: seq<GlCall>, cleanups: seq<GlCall>, phaseCalls: seq<GlCall>, pushed: seq<GlCall>)
    requires ShaderLoopInvariant(shaders, rs, h, i, calls, cleanups) && i < |rs| && !PhaseSucceeds(rs[i])
    requires LedgerOf(phaseCalls) ==
      Ledger([CreateShader(shaders[i].shaderType, rs[i].handle)],
             if CompileSucceeds(rs[i]) then [AttachShader(h, rs[i].handle)] else [], [], [], [])
    requires pushed == if CompileSucceeds(rs[i]) then [DeleteShader(rs[i].handle)] else []
    ensures FailedShader(rs) == i
    ensures ShaderLoopOutcome(shaders, rs, h, calls + phaseCalls, cleanups + pushed)
  {
    FirstFalseUnique(rs, PhaseSucceeds, i);
    LedgerConcat(calls, phaseCalls);
    StoppedLedger(h, rs, i, pushed);
    StoppedCalls(shaders, rs, h, i);
  }

  /** A loop that passes the last shader has attached them all. */
  lemma ShaderLoopDone(shaders: seq<Shader>, rs: seq<ShaderReplies>, h: nat, calls: seq<GlCall>, cleanups: seq<GlCall>)
    requires ShaderLoopInvariant(shaders, rs, h, |rs|, calls, cleanups)
    ensures FailedShader(rs) == |rs|
    ensures ShaderLoopOutcome(shaders, rs, h, calls, cleanups)
  {
    FirstFalseUnique(rs, PhaseSucceeds, |rs|);
    assert shaders[..|rs|] == shaders && rs[..|rs|] == rs;
    PendingCleanupsLedger(h, rs);
  }

  /** The ledger of an exit of `Program::Create` after the program was
      created: the program creation, the shader loop, the link call if the
      loop passed every shader, then the pending shader cleanups and the
      program deletions `deletes`, in either order. */
  lemma ExitLedger(shaders: seq<Shader>, rs: seq<ShaderReplies>, h: nat, loopCalls: seq<GlCall>,
                   link: seq<GlCall>, cleanups: seq<GlCall>, deletes: seq<GlCall>, cleanupsFirst: bool)
    requires |rs| == |shaders| && ShaderLoopOutcome(shaders, rs, h, loopCalls, cleanups)
    requires link == if FailedShader(rs) == |rs| then [LinkProgram(h)] else []
    requires deletes == [] || (|deletes| == 1 && deletes[0].DeleteProgram?)
    ensures var calls := [CreateProgram(h)] + loopCalls + link +
                         (if cleanupsFirst then cleanups + deletes else deletes + cleanups);
      var ledger := LedgerOf(calls);
      ledger.created == CreationCalls(shaders[..ShadersStarted(rs)], rs[..ShadersStarted(rs)]) &&
      ledger.attached == AttachCalls(h, rs[..ShadersCompiled(rs)]) &&
      ledger.detached == DetachCalls(h, rs[..FailedShader(rs)]) &&
      ledger.linked == link &&
      ledger.deletedPrograms == deletes &&
      DeletesShaders(calls, rs[..ShadersCompiled(rs)])
  {
    var before := [CreateProgram(h)] + loopCalls + link;
    var tail := if cleanupsFirst then cleanups + deletes else deletes + cleanups;
    HeadLedger(h, loopCalls, link);
    TailLedger(cleanups, deletes, cleanupsFirst, DetachCalls(h, rs[..FailedShader(rs)]));
    LedgerConcat(before, tail);
    var compiled := rs[..ShadersCompiled(rs)];
    if cleanupsFirst {
      DeletesShadersBefore(cleanups, deletes, compiled);
    } else {
      DeletesShadersAfter(deletes, cleanups, compiled);
    }
    DeletesShadersAfter(before, tail, compiled);
  }

  /** The ledger of the calls before the exit cleanups run. */
  lemma HeadLedger(h: nat, loopCalls: seq<GlCall>, link: seq<GlCall>)
    requires link == [] || link == [LinkProgram(h)]
    ensures LedgerOf([CreateProgram(h)] + loopCalls + link) == LedgerOf(loopCalls).Plus(Ledger([], [], [], link, []))
  {
    assert LedgerOf([CreateProgram(h)]) == EmptyLedger;
    assert LedgerOf(link) == Ledger([], [], [], link, []);
    LedgerConcat([CreateProgram(h)], loopCalls);
    LedgerConcat([CreateProgram(h)] + loopCalls, link);
  }

  /** The ledger of the exit cleanups: shader cleanups and program deletions. */
  lemma TailLedger(cleanups: seq<GlCall>, deletes: seq<GlCall>, cleanupsFirst: bool, detached: seq<GlCall>)
    requires LedgerOf(cleanups) == Ledger([], [], detached, [], [])
    requires deletes == [] || (|deletes| == 1 && deletes[0].DeleteProgram?)
    ensures LedgerOf(if cleanupsFirst then cleanups + deletes else deletes + cleanups) == Ledger([], [], detached, [], deletes)
  {
    assert LedgerOf(deletes) == Ledger([], [], [], [], deletes);
    LedgerConcat(cleanups, deletes);
    LedgerConcat(deletes, cleanups);
  }

  /** The calls of one shader compilation: one shader creation, first, and
      no call on the program. */
  lemma ShaderCallsLedger(s: seq<GlCall>)
    requires forall c :: c in s ==> IsShaderCall(c)
    requires |s| >= 1 && s[0].CreateShader?
    requires forall i :: 1 <= i < |s| ==> !s[i].CreateShader?
    ensures LedgerOf(s) == Ledger([s[0]], [], [], [], [])
  {
    FilterNone(s, IsAttach);
    FilterNone(s, IsDetach);
    FilterNone(s, IsLink);
    FilterNone(s, IsDeleteProgram);
    forall x | x in s[1..] ensures !IsCreateShader(x) {
      var i :| 0 <= i < |s[1..]| && s[1..][i] == x;
      assert s[i + 1] == x;
    }
    FilterNone(s[1..], IsCreateShader);
    assert s == [s[0]] + s[1..];
    FilterConcat([s[0]], s[1..], IsCreateShader);
  }

  /** `gl_utils::Program`: owns one GL program handle. */
  class Program {
    const handle: nat

    constructor(handle: nat)
      ensures this.handle == handle
    {
      this.handle := handle;
    }

    /** `GetHandle`: the handle the program owns. */
    function GetHandle(): (h: nat)
      ensures h == handle
    {
      handle
    }

    /** `~Program`: deletes the program handle. */
    method Destroy() returns (calls: seq<GlCall>)
      ensures calls == [DeleteProgram(handle)]
    {
      calls := [DeleteProgram(handle)];
    }

    /** `CompileShader`: creates a shader object, sets its source and
        compiles it. `idx` is the value stored through `shader_idx`.
        A scoped cleanup deletes the shader on every exit after its creation
        except success; on a failed compile status the failure branch also
        deletes it explicitly, so it is deleted twice. */
    static method CompileShader(code: string, shaderType: int, r: ShaderReplies)
      returns (ok: bool, idx: nat, calls: seq<GlCall>)
      ensures idx == r.handle
      ensures ok <==> CompileSucceeds(r)
      ensures |calls| >= 1 && calls[0] == CreateShader(shaderType, idx)
      ensures forall i :: 0 <= i < |calls| ==> IsShaderCall(calls[i]) && (calls[i].CreateShader? <==> i == 0)
      ensures ok ==> calls == [CreateShader(shaderType, idx), ShaderSource(idx, code), Compile(idx), QueryCompileStatus(idx)]
      ensures CreateStep in r.errors || idx == 0 ==> calls == [CreateShader(shaderType, idx)]
      ensures !ok && idx != 0 && CreateStep !in r.errors ==> calls[|calls| - 1] == DeleteShader(idx)
      ensures ReachesExplicitDelete(r) ==>
        calls == [CreateShader(shaderType, idx), ShaderSource(idx, code), Compile(idx), QueryCompileStatus(idx),
                  QueryInfoLogLength(idx), QueryInfoLog(idx), DeleteShader(idx), DeleteShader(idx)]
      ensures !ok && idx != 0 && CreateStep !in r.errors && !ReachesExplicitDelete(r) ==>
        DeleteShader(idx) !in calls[..|calls| - 1]
    {
      idx := r.handle;
      var created := CreateShader(shaderType, idx);
      if CreateStep in r.errors || idx == 0 {
        return false, idx, [created];
      }
      // From here on the scoped cleanup deletes the shader on every exit.
      var cleanup := DeleteShader(idx);
      if SourceStep in r.errors {
        return false, idx, [created, ShaderSource(idx, code), cleanup];
      }
      if CompileStep in r.errors {
        return false, idx, [created, ShaderSource(idx, code), Compile(idx), cleanup];
      }
      calls := [created, ShaderSource(idx, code), Compile(idx), QueryCompileStatus(idx)];
      if StatusStep in r.errors {
        return false, idx, calls + [cleanup];
      }
      if !r.compiled {
        if LogLengthStep in r.errors {
          return false, idx, calls + [QueryInfoLogLength(idx), cleanup];
        }
        if InfoLogStep in r.errors {
          return false, idx, calls + [QueryInfoLogLength(idx), QueryInfoLog(idx), cleanup];
        }
        // The failure branch deletes the shader itself, then the cleanup
        // deletes it again.
        return false, idx, calls + [QueryInfoLogLength(idx), QueryInfoLog(idx), DeleteShader(idx), cleanup];
      }
      // The cleanup is released: the compiled shader stays alive.
      ok := true;
    }

    /** One iteration of the shader loop of `Create`: compiles the shader
        and, when that succeeds, pushes its delete cleanup, attaches it and,
        when no error is pending after the attach, pushes its detach
        cleanup. `pushed` are the cleanups this iteration pushes. */
    static method CompileAndAttachOne(shader: Shader, r: ShaderReplies, h: nat)
      returns (ok: bool, calls: seq<GlCall>, pushed: seq<GlCall>)
      ensures ok <==> PhaseSucceeds(r)
      ensures LedgerOf(calls) ==
        Ledger([CreateShader(shader.shaderType, r.handle)],
               if CompileSucceeds(r) then [AttachShader(h, r.handle)] else [], [], [], [])
      ensures pushed ==
        if !CompileSucceeds(r) then []
        else if r.attachError then [DeleteShader(r.handle)]
        else [DeleteShader(r.handle), DetachShader(h, r.handle)]
    {
      var compiled, idx, shaderCalls := CompileShader(shader.code, shader.shaderType, r);
      ShaderCallsLedger(shaderCalls);
      calls := shaderCalls;
      if !compiled {
        return false, calls, [];
      }
      var attach := [AttachShader(h, idx)];
      assert LedgerOf(attach) == Ledger([], attach, [], [], []);
      LedgerConcat(calls, attach);
      calls := calls + attach;
      if r.attachError {
        return false, calls, [DeleteShader(idx)];
      }
      ok, pushed := true, [DeleteShader(idx), DetachShader(h, idx)];
    }

    /** The shader loop of `Create`: compiles and attaches the shaders in
        order and stops at the first compile or attach failure. `calls` are
        the GL calls made, `cleanups` the deferred cleanups it leaves
        pending (the source's `shader_cleanups`), in the order pushed. */
    static method CompileAndAttach(shaders: seq<Shader>, replies: seq<ShaderReplies>, h: nat)
      returns (attached: bool, calls: seq<GlCall>, cleanups: seq<GlCall>)
      requires |replies| == |shaders|
      ensures attached <==> FailedShader(replies) == |shaders|
      ensures ShaderLoopOutcome(shaders, replies, h, calls, cleanups)
    {
      attached, calls, cleanups := false, [], [];
      var i := 0;
      while i < |shaders|
        invariant ShaderLoopInvariant(shaders, replies, h, i, calls, cleanups)
      {
        var ok, phaseCalls, pushed := CompileAndAttachOne(shaders[i], replies[i], h);
        if !ok {
          ShaderLoopStop(shaders, replies, h, i, calls, cleanups, phaseCalls, pushed);
          calls, cleanups := calls + phaseCalls, cleanups + pushed;
          return;
        }
        ShaderLoopStep(shaders, replies, h, i, calls, cleanups, phaseCalls);
        calls, cleanups := calls + phaseCalls, cleanups + pushed;
        i := i + 1;
      }
      ShaderLoopDone(shaders, replies, h, calls, cleanups);
      attached := true;
    }

    /** `Create`: creates a program, compiles and attaches the shaders in
        order, stopping at the first failure, and links the program.
        `prior` is the value of `*program` on entry; it is overwritten only
        on success, which destroys the program it held. On every exit after the program was created the pending
        shader cleanups run, in an order the model fixes as the order they
        were pushed; on a failing exit the program cleanup then deletes the
        program. */
    static method Create(shaders: seq<Shader>, replies: seq<ShaderReplies>, programReply: ProgramReplies, prior: Program?)
      returns (ok: bool, program: Program?, calls: seq<GlCall>)
      requires |replies| == |shaders|
      ensures |calls| >= 1 && calls[0] == CreateProgram(programReply.handle)
      ensures programReply.handle == 0 ==> !ok && program == prior && calls == [CreateProgram(0)]
      ensures ok <==> programReply.handle != 0 && FailedShader(replies) == |shaders| && !programReply.linkError
      ensures ok ==> program != null && program.GetHandle() == programReply.handle
      ensures !ok ==> program == prior
      ensures !ok && programReply.handle != 0 ==> calls[|calls| - 1] == DeleteProgram(programReply.handle)
      ensures programReply.handle != 0 ==>
        var ledger := LedgerOf(calls);
        var h := programReply.handle;
        ledger.created == CreationCalls(shaders[..ShadersStarted(replies)], replies[..ShadersStarted(replies)]) &&
        ledger.attached == AttachCalls(h, replies[..ShadersCompiled(replies)]) &&
        multiset(ledger.detached) == multiset(DetachCalls(h, replies[..FailedShader(replies)])) &&
        ledger.linked == (if FailedShader(replies) == |shaders| then [LinkProgram(h)] else []) &&
        ledger.deletedPrograms ==
          if !ok then [DeleteProgram(h)]
          else if prior != null then [DeleteProgram(prior.handle)]
          else []
      ensures programReply.handle != 0 ==>
        DeletesShaders(calls, replies[..ShadersCompiled(replies)])
    {
      var h := programReply.handle;
      calls := [CreateProgram(h)];
      if h == 0 {
        return false, prior, calls;
      }
      // From here on the scoped program cleanup deletes the program on exit.
      var attached, loopCalls, cleanups := CompileAndAttach(shaders, replies, h);
      var link: seq<GlCall> := [];
      if attached {
        link := [LinkProgram(h)];
      }
      if !attached || programReply.linkError {
        var delete := [DeleteProgram(h)];
        ExitLedger(shaders, replies, h, loopCalls, link, cleanups, delete, true);
        calls := calls + loopCalls + link + (cleanups + delete);
        return false, prior, calls;
      }
      // Assigning `*program` destroys the program it held before; then the
      // program cleanup is released and the shader cleanups run.
      program := new Program(h);
      var reset: seq<GlCall> := [];
      if prior != null {
        reset := prior.Destroy();
      }
      ExitLedger(shaders, replies, h, loopCalls, link, cleanups, reset, false);
      calls := calls + loopCalls + link + (reset + cleanups);
      ok := true;
    }
  }
}
