/**
 * What the runs of the user authentication machine amount to. Every message is judged by a
 * reference that reads only the oracles it carries and the state it meets; the machine is proved
 * to accept and to count exactly what the reference says, and the promises about whole runs are
 * stated on the messages.
 */
module AuthRuns {
  import opened Octets
  import opened MethodLists
  import opened UserAuth

  // ---- what a message amounts to

  /** The reference verdict on a message, read off the oracles it carries and the state it meets:
      not considered or fatal, waiting for more, or decided. */
  datatype Judgement = Void | Pending | Granted(serverCaused: bool) | Refused(serverCaused: bool)

  predicate CanAsk(cfg: Config, lists: seq<string>, k: Kbd, dev: Device) {
    NextDevice(cfg, lists, k).device.Some? && dev.initOk && dev.queryOk
  }

  function JudgePubkey(s: Auth, t: Try): Judgement
    requires t.Pubkey?
  {
    if t.parsed.None? || KeyUsed(s.rec.prevKeys, t.parsed.value) || !t.acceptable || !t.verified || !s.id.valid
    then Refused(false)
    else if !t.hasSig then Pending
    else if t.activated then Granted(false) else Refused(false)
  }

  function JudgeSimple(s: Auth, t: Try): Judgement
    requires t.Simple?
  {
    if !t.ok then Refused(t.serverCaused) else if s.id.valid then Granted(t.serverCaused) else Void
  }

  /** Method `am` tried in context s. */
  function Judge(cfg: Config, s: Auth, am: AuthMethod, t: Try): Judgement {
    match am.kind
    case PubkeyMethod => if t.Pubkey? then JudgePubkey(s, t) else Void
    case HostbasedMethod =>
      if !t.Hostbased? then Void else if t.ok && s.id.valid then Granted(false) else Refused(false)
    case KbdintMethod =>
      if !t.Kbdint? then Void
      else if CanAsk(cfg, s.rec.lists, NewKbd(cfg, t.devs), t.dev) then Pending else Refused(false)
    case _ => if t.Simple? then JudgeSimple(s, t) else Void
  }

  function JudgeRequest(cfg: Config, s: Auth, name: string, t: Try): Judgement {
    var am := Lookup(cfg, s, name);
    if am.None? || s.tally.failures >= cfg.maxTries then Refused(false) else Judge(cfg, s, am.value, t)
  }

  /** A device's question is open and the response has the right number of answers. */
  predicate Answerable(cfg: Config, s: Auth, m: Msg) {
    && m.Response? && s.responses && s.kbd.Some? && s.kbd.value.device.Some?
    && s.kbd.value.device.value < |cfg.devices| && m.nresp == s.kbd.value.nreq && m.nresp <= MAX_REPLIES
  }

  function JudgeResponse(cfg: Config, s: Auth, m: Msg): Judgement
    requires Answerable(cfg, s, m)
  {
    if m.reply.MoreNeeded? && m.reply.queryOk then Pending
    else if m.reply.Correct? && s.id.valid then Granted(false)
    else if CanAsk(cfg, s.rec.lists, s.kbd.value, m.dev) then Pending
    else Refused(false)
  }

  /** Message m in state s. */
  function Judged(cfg: Config, s: Auth, m: Msg): Judgement {
    if s.stopped || s.success then Void
    else match m
      case Service(_) => Void
      case Request(user, service, name, pwOk, attempt, _) =>
        var s1 := Begin(cfg, s, user, service, pwOk);
        if !s.requests || s1.stopped then Void else JudgeRequest(cfg, s1, name, attempt)
      case Response(_, _, _, _) => if Answerable(cfg, s, m) then JudgeResponse(cfg, s, m) else Void
  }

  /** The name in the packet, and the method it stands for. */
  function PacketName(cfg: Config, m: Msg): string { if m.Request? then m.name else cfg.names.kbdint }

  function MethodOf(cfg: Config, m: Msg): Option<AuthMethod> { ByName(cfg.table, PacketName(cfg, m)) }

  /** The device whose question m answers. */
  function DeviceOf(cfg: Config, s: Auth, m: Msg): Option<string> {
    if Answerable(cfg, s, m) then Some(cfg.devices[s.kbd.value.device.value]) else None
  }

  /** The public key that m carries. */
  function KeyOf(cfg: Config, m: Msg): Option<Key> {
    if m.Request? && m.attempt.Pubkey? && MethodOf(cfg, m).Some? && MethodOf(cfg, m).value.kind.PubkeyMethod?
    then m.attempt.parsed else None
  }

  /** What message m proves to the server in state s. */
  function Proved(cfg: Config, s: Auth, m: Msg): Option<Success> {
    if Judged(cfg, s, m).Granted? && !m.env.rootDenied && MethodOf(cfg, m).Some?
    then Some(Success(MethodOf(cfg, m).value.name, DeviceOf(cfg, s, m), KeyOf(cfg, m)))
    else None
  }

  /** The very first request, under the name "none". */
  predicate FirstNone(cfg: Config, s: Auth, m: Msg, name: string) {
    name == cfg.names.none && (if m.Request? then s.tally.attempt == 0 else s.tally.attempt <= 1)
  }

  /** Message m completes an attempt that failed, neither partially nor by the server's fault. */
  predicate Failed(cfg: Config, s: Auth, m: Msg) {
    var j := Judged(cfg, s, m);
    || (j.Refused? && !j.serverCaused && !FirstNone(cfg, s, m, PacketName(cfg, m)))
    || (j.Granted? && !j.serverCaused && m.env.rootDenied && MethodOf(cfg, m).Some?
        && !FirstNone(cfg, s, m, MethodOf(cfg, m).value.name))
  }

  // ---- the machine follows the reference

  /** What trying a method leaves for userauth_finish. */
  ghost predicate Follows(s: Auth, v: Verdict, j: Judgement, key: Option<Key>) {
    && OnlyMethodState(s, v.s)
    && (j.Void? ==> v.s.stopped || (v.ok && !s.id.valid))
    && (!j.Void? ==> !v.s.stopped && (v.ok ==> s.id.valid))
    && (j.Pending? <==> !v.s.stopped && v.s.postponed)
    && (j.Granted? ==> v.ok && v.key == key && v.s.serverCaused == j.serverCaused)
    && (j.Refused? ==> !v.ok && v.s.serverCaused == j.serverCaused)
    && (j.Pending? ==> !v.ok)
  }

  lemma PubkeyFollows(s: Auth, t: Try)
    requires !s.stopped && !s.postponed && !s.serverCaused && t.Pubkey?
    ensures Follows(s, TryPubkey(s, t), JudgePubkey(s, t), t.parsed)
  {
  }

  lemma KbdintFollows(cfg: Config, s: Auth, t: Try)
    requires !s.stopped && !s.postponed && !s.serverCaused && t.Kbdint?
    ensures Follows(s, TryKbdint(cfg, s, t),
                    if CanAsk(cfg, s.rec.lists, NewKbd(cfg, t.devs), t.dev) then Pending else Refused(false), None)
  {
  }

  lemma HostbasedFollows(s: Auth, t: Try)
    requires !s.stopped && !s.postponed && !s.serverCaused && t.Hostbased?
    ensures Follows(s, TryHostbased(s, t), if t.ok && s.id.valid then Granted(false) else Refused(false), None)
  {
  }

  lemma SimpleFollows(s: Auth, t: Try, isNone: bool)
    requires !s.stopped && !s.postponed && !s.serverCaused && t.Simple?
    ensures Follows(s, TrySimple(s, t, isNone), JudgeSimple(s, t), None)
  {
  }

  lemma RunMethodFollows(cfg: Config, s: Auth, am: AuthMethod, t: Try)
    requires !s.stopped && !s.postponed && !s.serverCaused
    ensures Follows(s, RunMethod(cfg, s, am, t), Judge(cfg, s, am, t),
                    if am.kind.PubkeyMethod? && t.Pubkey? then t.parsed else None)
  {
    if am.kind.PubkeyMethod? && t.Pubkey? {
      PubkeyFollows(s, t);
    } else if am.kind.KbdintMethod? && t.Kbdint? {
      KbdintFollows(cfg, s, t);
    } else if am.kind.HostbasedMethod? && t.Hostbased? {
      HostbasedFollows(s, t);
    } else if (am.kind.NoneMethod? || am.kind.PasswordMethod?) && t.Simple? {
      SimpleFollows(s, t, am.kind.NoneMethod?);
    }
  }

  // ---- userauth_finish

  lemma AcceptCounts(cfg: Config, s: Auth, e: Success, env: Env)
    requires !s.postponed
    ensures Accept(cfg, s, e, env).tally == s.tally
  {
    var s1 := s.(rec := s.rec.(accepted := s.rec.accepted + [e]));
    if Configured(cfg) {
      assert Accept(cfg, s, e, env) == AcceptListed(cfg, s1, e, env);
    } else {
      assert Accept(cfg, s, e, env) == Conclude(cfg, s1, true, false, e.name, env);
    }
  }

  lemma FinishRefuses(cfg: Config, s: Auth, name: string, sub: Option<string>, key: Option<Key>, env: Env)
    ensures var s' := Finish(cfg, s, false, name, sub, key, env);
      && s'.rec.accepted == s.rec.accepted
      && s'.tally == if s.postponed then s.tally else Refuse(cfg, s.tally, name, false, s.serverCaused)
  {
  }

  lemma FinishGrants(cfg: Config, s: Auth, name: string, sub: Option<string>, key: Option<Key>, env: Env)
    requires s.id.valid && !s.postponed
    ensures var s' := Finish(cfg, s, true, name, sub, key, env); var m := ByName(cfg.table, name);
      && s'.rec.accepted ==
           (if m.Some? && !env.rootDenied then s.rec.accepted + [Success(m.value.name, sub, key)] else s.rec.accepted)
      && s'.tally ==
           (if m.Some? && env.rootDenied then Refuse(cfg, s.tally, m.value.name, false, s.serverCaused) else s.tally)
  {
    var m := ByName(cfg.table, name);
    if m.Some? && !env.rootDenied {
      AcceptCounts(cfg, s, Success(m.value.name, sub, key), env);
    }
  }

  // ---- one message

  function OptSeq<T>(o: Option<T>): seq<T> { if o.Some? then [o.value] else [] }

  /** The machine's step accepts and counts what the reference says. */
  ghost predicate AsJudged(cfg: Config, s: Auth, s': Auth, m: Msg) {
    && s'.rec.accepted == s.rec.accepted + OptSeq(Proved(cfg, s, m))
    && s'.tally.failures == s.tally.failures + (if Failed(cfg, s, m) then 1 else 0)
  }

  lemma VoidIsVoid(cfg: Config, s: Auth, s': Auth, m: Msg)
    requires Judged(cfg, s, m).Void? || Judged(cfg, s, m).Pending?
    requires s'.rec.accepted == s.rec.accepted && s'.tally.failures == s.tally.failures
    ensures AsJudged(cfg, s, s', m)
  {
    assert s.rec.accepted + [] == s.rec.accepted;
  }

  /** Trying the method of a request that is admitted with context s1. */
  lemma TryFollows(cfg: Config, s1: Auth, name: string, t: Try)
    requires !s1.stopped
    ensures var s2 := ResetForRequest(s1); var am := ByName(cfg.table, name);
      Follows(s2, TryMethod(cfg, s2, name, t), JudgeRequest(cfg, s1, name, t),
              if am.Some? && am.value.kind.PubkeyMethod? && t.Pubkey? then t.parsed else None)
  {
    var s2 := ResetForRequest(s1);
    var am := Lookup(cfg, s1, name);
    assert Lookup(cfg, s2, name) == am;
    if am.Some? && s2.tally.failures < cfg.maxTries {
      RunMethodFollows(cfg, s2, am.value, t);
      JudgeIgnoresFlags(cfg, s1, am.value, t);
    }
  }

  lemma JudgeIgnoresFlags(cfg: Config, s1: Auth, am: AuthMethod, t: Try)
    ensures Judge(cfg, ResetForRequest(s1), am, t) == Judge(cfg, s1, am, t)
  {
  }

  /** userauth_finish after a method of the name was tried in state s2 with verdict v. */
  lemma FinishFollows(cfg: Config, s2: Auth, v: Verdict, j: Judgement, key: Option<Key>, name: string, env: Env)
    requires Follows(s2, v, j, key)
    ensures var s' := if v.s.stopped then v.s else Finish(cfg, v.s, v.ok, name, None, v.key, env);
      var m := ByName(cfg.table, name); var late := s2.tally.attempt > 1;
      && s'.rec.accepted == s2.rec.accepted +
           OptSeq(if j.Granted? && !env.rootDenied && m.Some? then Some(Success(m.value.name, None, key)) else None)
      && s'.tally.failures == s2.tally.failures +
           (if || (j.Refused? && !j.serverCaused && (late || name != cfg.names.none))
               || (j.Granted? && !j.serverCaused && env.rootDenied && m.Some?
                   && (late || m.value.name != cfg.names.none))
            then 1 else 0)
  {
    assert s2.rec.accepted + [] == s2.rec.accepted;
    if j.Granted? {
      FinishGrants(cfg, v.s, name, None, v.key, env);
    } else if !v.s.stopped && !v.ok {
      FinishRefuses(cfg, v.s, name, None, v.key, env);
    }
  }

  lemma AttemptJudged(cfg: Config, s: Auth, m: Msg)
    requires m.Request? && !s.stopped && !s.success && s.requests
    requires !Begin(cfg, s, m.user, m.service, m.pwOk).stopped
    ensures AsJudged(cfg, s, Attempted(cfg, Begin(cfg, s, m.user, m.service, m.pwOk), m.name, m.attempt, m.env), m)
  {
    var s1 := Begin(cfg, s, m.user, m.service, m.pwOk);
    var s2 := ResetForRequest(s1);
    var v := TryMethod(cfg, s2, m.name, m.attempt);
    TryFollows(cfg, s1, m.name, m.attempt);
    BeginCounts(cfg, s, m.user, m.service, m.pwOk);
    FinishFollows(cfg, s2, v, JudgeRequest(cfg, s1, m.name, m.attempt), KeyOf(cfg, m), m.name, m.env);
  }

  lemma BeginCounts(cfg: Config, s: Auth, user: string, service: string, pwOk: bool)
    requires !Begin(cfg, s, user, service, pwOk).stopped
    ensures var s1 := Begin(cfg, s, user, service, pwOk);
      s1.tally == Tally(s.tally.attempt + 1, s.tally.failures) && s1.rec.accepted == s.rec.accepted
  {
  }

  /** While a question is open no failure is laid to the server. */
  predicate Blameless(s: Auth) { s.responses ==> !s.serverCaused }

  lemma TryKeepsBlameless(cfg: Config, s: Auth, name: string, t: Try)
    requires !s.responses && !s.serverCaused
    ensures Blameless(TryMethod(cfg, s, name, t).s)
  {
  }

  lemma RequestKeepsBlameless(cfg: Config, s: Auth, m: Msg)
    requires m.Request? && Blameless(s)
    ensures Blameless(InputRequest(cfg, s, m))
  {
    var s1 := Begin(cfg, s, m.user, m.service, m.pwOk);
    if s.requests && !s1.stopped {
      var s2 := ResetForRequest(s1);
      TryKeepsBlameless(cfg, s2, m.name, m.attempt);
      var v := TryMethod(cfg, s2, m.name, m.attempt);
    }
  }

  lemma AnsweredKeepsBlameless(cfg: Config, s: Auth, m: Msg, dev: string)
    requires m.Response? && s.kbd.Some? && !s.serverCaused
    ensures !Answered(cfg, s, m, dev).serverCaused
  {
  }

  lemma ResponseKeepsBlameless(cfg: Config, s: Auth, m: Msg)
    requires m.Response? && Blameless(s)
    ensures Blameless(InputResponse(cfg, s, m))
  {
    if Answerable(cfg, s, m) {
      AnsweredKeepsBlameless(cfg, s, m, cfg.devices[s.kbd.value.device.value]);
    }
  }

  lemma StepKeepsBlameless(cfg: Config, s: Auth, m: Msg)
    requires Blameless(s)
    ensures Blameless(Step(cfg, s, m))
  {
    if m.Request? {
      RequestKeepsBlameless(cfg, s, m);
    } else if m.Response? {
      ResponseKeepsBlameless(cfg, s, m);
    }
  }

  /** The context after a reply waits exactly while the reference says so. */
  lemma ReplyFollows(cfg: Config, s: Auth, m: Msg)
    requires Answerable(cfg, s, m) && !s.serverCaused
    ensures var s2 := AfterReply(cfg, s, m);
      s2.postponed == JudgeResponse(cfg, s, m).Pending? && !s2.serverCaused
  {
  }

  lemma ResponseJudged(cfg: Config, s: Auth, m: Msg)
    requires !s.stopped && !s.success && Blameless(s) && Answerable(cfg, s, m)
    ensures AsJudged(cfg, s, Answered(cfg, s, m, cfg.devices[s.kbd.value.device.value]), m)
  {
    var dev := cfg.devices[s.kbd.value.device.value];
    var s2 := AfterReply(cfg, s, m);
    ReplyFollows(cfg, s, m);
    var j := JudgeResponse(cfg, s, m);
    assert j == Judged(cfg, s, m);
    if j.Granted? {
      FinishGrants(cfg, s2, cfg.names.kbdint, Some(dev), None, m.env);
    } else {
      FinishRefuses(cfg, s2, cfg.names.kbdint, Some(dev), None, m.env);
    }
  }

  lemma StepJudged(cfg: Config, s: Auth, m: Msg)
    requires Blameless(s)
    ensures AsJudged(cfg, s, Step(cfg, s, m), m)
  {
    if s.stopped || s.success || m.Service? {
      VoidIsVoid(cfg, s, Step(cfg, s, m), m);
    } else if m.Request? {
      RequestJudged(cfg, s, m);
    } else if Answerable(cfg, s, m) {
      ResponseJudged(cfg, s, m);
    } else {
      UnanswerableIsVoid(cfg, s, m);
      VoidIsVoid(cfg, s, InputResponse(cfg, s, m), m);
    }
  }

  lemma UnanswerableIsVoid(cfg: Config, s: Auth, m: Msg)
    requires m.Response? && !Answerable(cfg, s, m)
    ensures var s' := InputResponse(cfg, s, m);
      s'.rec.accepted == s.rec.accepted && s'.tally.failures == s.tally.failures
  {
    assert var s' := InputResponse(cfg, s, m); s' == s || s' == Stop(s) || s' == Stop(s.(postponed := false));
  }

  lemma RequestJudged(cfg: Config, s: Auth, m: Msg)
    requires m.Request? && !s.stopped && !s.success
    ensures AsJudged(cfg, s, InputRequest(cfg, s, m), m)
  {
    var s1 := Begin(cfg, s, m.user, m.service, m.pwOk);
    if s.requests && !s1.stopped {
      AttemptJudged(cfg, s, m);
    } else {
      VoidIsVoid(cfg, s, InputRequest(cfg, s, m), m);
    }
  }

  // ---- runs

  lemma FreshInv(cfg: Config)
    requires GoodConfig(cfg)
    ensures Inv(cfg, Fresh)
  {
  }

  lemma {:induction false} RunFront(cfg: Config, s: Auth, trace: seq<Msg>, m: Msg)
    ensures Run(cfg, s, trace + [m]) == Step(cfg, Run(cfg, s, trace), m)
    decreases |trace|
  {
    if trace == [] {
      assert Run(cfg, s, [m]) == Run(cfg, Step(cfg, s, m), [m][1..]);
    } else {
      assert (trace + [m])[1..] == trace[1..] + [m];
      RunFront(cfg, Step(cfg, s, trace[0]), trace[1..], m);
    }
  }

  /** The state before message i of a run. */
  function Before(cfg: Config, trace: seq<Msg>, i: nat): Auth
    requires i <= |trace|
  {
    Run(cfg, Fresh, trace[..i])
  }

  /** What message i of a run proves. */
  function ProvedAt(cfg: Config, trace: seq<Msg>, i: nat): Option<Success>
    requires i < |trace|
  {
    Proved(cfg, Before(cfg, trace, i), trace[i])
  }

  function Evidence(cfg: Config, trace: seq<Msg>): (ev: seq<Option<Success>>)
    ensures |ev| == |trace|
  {
    seq(|trace|, i requires 0 <= i < |trace| => ProvedAt(cfg, trace, i))
  }

  function Collect<T>(ps: seq<Option<T>>): seq<T> {
    if ps == [] then [] else Collect(ps[..|ps| - 1]) + OptSeq(ps[|ps| - 1])
  }

  /** How many messages of a run fail. */
  function Failures(cfg: Config, trace: seq<Msg>): nat {
    if trace == [] then 0
    else
      var front := trace[..|trace| - 1];
      Failures(cfg, front) + if Failed(cfg, Run(cfg, Fresh, front), trace[|trace| - 1]) then 1 else 0
  }

  lemma EvidenceNext(cfg: Config, trace: seq<Msg>, n: nat)
    requires n < |trace|
    ensures Evidence(cfg, trace[..n + 1]) == Evidence(cfg, trace[..n]) + [ProvedAt(cfg, trace, n)]
  {
    var (upto, front) := (trace[..n + 1], trace[..n]);
    forall i | 0 <= i <= n ensures upto[..i] == trace[..i] && (i < n ==> front[..i] == trace[..i]) {
    }
  }

  /** The machine accepts exactly what the messages of the run prove, and counts exactly its failures. */
  ghost predicate RunAsJudged(cfg: Config, trace: seq<Msg>, s: Auth) {
    s.rec.accepted == Collect(Evidence(cfg, trace)) && s.tally.failures == Failures(cfg, trace)
  }

  lemma NextJudged(cfg: Config, front: seq<Msg>, m: Msg, s': Auth)
    requires RunAsJudged(cfg, front, Run(cfg, Fresh, front)) && AsJudged(cfg, Run(cfg, Fresh, front), s', m)
    ensures RunAsJudged(cfg, front + [m], s')
  {
    var (trace, n) := (front + [m], |front|);
    assert trace[..n] == front && trace[..n + 1] == trace;
    EvidenceNext(cfg, trace, n);
    CollectNext(Evidence(cfg, front), ProvedAt(cfg, trace, n));
  }

  lemma {:induction false} RunJudged(cfg: Config, trace: seq<Msg>)
    ensures Blameless(Run(cfg, Fresh, trace)) && RunAsJudged(cfg, trace, Run(cfg, Fresh, trace))
    decreases |trace|
  {
    if trace != [] {
      var n := |trace| - 1;
      var (front, m) := (trace[..n], trace[n]);
      RunJudged(cfg, front);
      assert trace == front + [m];
      RunFront(cfg, Fresh, front, m);
      var s := Run(cfg, Fresh, front);
      StepJudged(cfg, s, m);
      StepKeepsBlameless(cfg, s, m);
      NextJudged(cfg, front, m, Step(cfg, s, m));
    }
  }

  lemma CollectNext<T>(ps: seq<Option<T>>, p: Option<T>)
    ensures Collect(ps + [p]) == Collect(ps) + OptSeq(p)
  {
    assert (ps + [p])[..|ps|] == ps;
  }

  /** Positions of what is collected, in order and without omission. */
  ghost predicate CollectedAt<T>(ps: seq<Option<T>>, at: seq<nat>) {
    && |at| == |Collect(ps)| && Increasing(at, |ps|)
    && (forall k :: 0 <= k < |at| ==> ps[at[k]] == Some(Collect(ps)[k]))
    && (forall i :: 0 <= i < |ps| && ps[i].Some? ==> i in at)
  }

  lemma PositionsSkip<T>(ps: seq<Option<T>>, at: seq<nat>)
    requires CollectedAt(ps, at)
    ensures CollectedAt(ps + [None], at)
  {
    CollectNext(ps, None);
    assert Collect(ps) + [] == Collect(ps);
  }

  lemma PositionsTake<T>(ps: seq<Option<T>>, x: T, at: seq<nat>)
    requires CollectedAt(ps, at)
    ensures CollectedAt(ps + [Some(x)], at + [|ps|])
  {
    CollectNext(ps, Some(x));
    var (ps', at', c) := (ps + [Some(x)], at + [|ps|], Collect(ps));
    assert Collect(ps') == c + [x];
    forall k | 0 <= k < |at'| ensures ps'[at'[k]] == Some((c + [x])[k]) {
      if k < |at| { assert ps[at[k]] == Some(c[k]); }
    }
    forall i | 0 <= i < |ps'| && ps'[i].Some? ensures i in at' {
      if i < |ps| { assert i in at; } else { assert at'[|at|] == i; }
    }
  }

  lemma {:induction false} Positions<T>(ps: seq<Option<T>>) returns (at: seq<nat>)
    ensures CollectedAt(ps, at)
  {
    if ps == [] {
      at := [];
    } else {
      var (front, p) := (ps[..|ps| - 1], ps[|ps| - 1]);
      assert ps == front + [p];
      at := Positions(front);
      if p.Some? {
        PositionsTake(front, p.value, at);
        at := at + [|front|];
      } else {
        PositionsSkip(front, at);
      }
    }
  }

  // ---- the theorems

  /** The entries were proved, one after the other, by the messages at those positions. */
  ghost predicate ProvedInOrder(entries: seq<string>, ev: seq<Option<Success>>, at: seq<nat>) {
    && |at| == |entries| && Increasing(at, |ev|)
    && (forall k :: 0 <= k < |at| ==> ev[at[k]].Some? && Meets(entries[k], ev[at[k]].value))
  }

  lemma DoneIsEmbedded(r: Record, i: nat)
    requires RecordInv(r) && i < |r.lists| && r.lists[i] == ""
    ensures Embeds(Entries(r.origin[i]), r.accepted)
  {
    var all := Entries(r.origin[i]);
    assert Progress(r.origin[i], r.lists[i], r.accepted);
    assert all[..|all|] == all;
  }

  /** Section 5.1 of RFC 4252: when AuthenticationMethods is configured, a run that succeeds has
      completed one of the configured lists, all of whose methods are enabled, in order, and
      for a valid user. */
  lemma SuccessCompletesAList(cfg: Config, trace: seq<Msg>)
    requires GoodConfig(cfg) && Configured(cfg) && Run(cfg, Fresh, trace).success
    ensures Run(cfg, Fresh, trace).id.valid
    ensures exists list, at ::
      list in Required(cfg) && MethodsValid(list, cfg.table, true) && ProvedInOrder(Entries(list), Evidence(cfg, trace), at)
  {
    FreshInv(cfg);
    RunKeeps(cfg, Fresh, trace);
    RunJudged(cfg, trace);
    var r := Run(cfg, Fresh, trace).rec;
    var i :| 0 <= i < |r.lists| && r.lists[i] == "";
    var list := r.origin[i];
    KeptAreValid(Required(cfg), cfg.table);
    assert list in SetupLists(cfg);
    DoneIsEmbedded(r, i);
    var at := JoinPositions(Entries(list), Evidence(cfg, trace));
  }

  lemma JoinPositions(entries: seq<string>, ev: seq<Option<Success>>) returns (both: seq<nat>)
    requires Embeds(entries, Collect(ev))
    ensures ProvedInOrder(entries, ev, both)
  {
    var idx := EmbedsPositions(entries, Collect(ev));
    var at := Positions(ev);
    both := seq(|idx|, k requires 0 <= k < |idx| => at[idx[k]]);
    forall k | 0 <= k < |both| ensures ev[both[k]].Some? && Meets(entries[k], ev[both[k]].value) {
      assert ev[at[idx[k]]] == Some(Collect(ev)[idx[k]]);
    }
  }

  /** In every run the remaining lists are suffixes of the configured, fully enabled ones, and what
      was dropped from each was met in order. */
  lemma ListsOnlyShrink(cfg: Config, trace: seq<Msg>, i: nat)
    requires GoodConfig(cfg) && i < |Run(cfg, Fresh, trace).rec.lists|
    ensures var r := Run(cfg, Fresh, trace).rec;
      && i < |r.origin| && Suffix(r.lists[i], r.origin[i])
      && Consumed(Entries(r.origin[i]), Entries(r.lists[i]), r.accepted)
      && (Run(cfg, Fresh, trace).tally.attempt > 0 ==> r.origin == SetupLists(cfg))
  {
    FreshInv(cfg);
    RunKeeps(cfg, Fresh, trace);
    var r := Run(cfg, Fresh, trace).rec;
    assert Progress(r.origin[i], r.lists[i], r.accepted);
  }

  /** No two messages of a run prove possession of keys with the same public part. */
  lemma KeysAreUsedOnce(cfg: Config, trace: seq<Msg>, i: nat, j: nat)
    requires GoodConfig(cfg) && i < j < |trace|
    requires ProvedAt(cfg, trace, i).Some? && KeyOf(cfg, trace[i]).Some?
    requires ProvedAt(cfg, trace, j).Some? && KeyOf(cfg, trace[j]).Some?
    ensures KeyOf(cfg, trace[i]).value.pub != KeyOf(cfg, trace[j]).value.pub
  {
    FreshInv(cfg);
    RunKeeps(cfg, Fresh, trace);
    RunJudged(cfg, trace);
    KeyCarried(cfg, trace, i);
    KeyCarried(cfg, trace, j);
    KeysDiffer(Run(cfg, Fresh, trace).rec, Evidence(cfg, trace), i, j);
  }

  /** A proof carries the key of its message. */
  lemma KeyCarried(cfg: Config, trace: seq<Msg>, i: nat)
    requires i < |trace| && ProvedAt(cfg, trace, i).Some?
    ensures Evidence(cfg, trace)[i].Some? && Evidence(cfg, trace)[i].value.key == KeyOf(cfg, trace[i])
  {
  }

  lemma KeysDiffer(r: Record, ev: seq<Option<Success>>, i: nat, j: nat)
    requires KeysInv(r.prevKeys, r.accepted) && r.accepted == Collect(ev) && i < j < |ev|
    requires ev[i].Some? && ev[i].value.key.Some? && ev[j].Some? && ev[j].value.key.Some?
    ensures ev[i].value.key.value.pub != ev[j].value.key.value.pub
  {
    var at := Positions(ev);
    var k :| 0 <= k < |at| && at[k] == i;
    var l :| 0 <= l < |at| && at[l] == j;
    assert r.accepted[k] == ev[i].value && r.accepted[l] == ev[j].value;
  }

  /** Limits: a run that has not been cut off is below max_authtries, and the failure counter is
      the number of its messages that failed for the client's sake, except a first "none". */
  lemma LimitsHold(cfg: Config, trace: seq<Msg>)
    requires GoodConfig(cfg)
    ensures var s := Run(cfg, Fresh, trace);
      && s.tally.attempt <= MAX_ATTEMPTS
      && s.tally.failures == Failures(cfg, trace)
      && (!s.stopped ==> Failures(cfg, trace) < cfg.maxTries)
  {
    FreshInv(cfg);
    RunKeeps(cfg, Fresh, trace);
    RunJudged(cfg, trace);
  }

  // ---- keyboard-interactive exchanges

  /** A device's question is open. */
  predicate Open(s: Auth) {
    s.responses && !s.stopped && !s.success && s.kbd.Some? && s.kbd.value.device.Some?
  }

  function Asked(s: Auth): nat
    requires Open(s)
  {
    s.kbd.value.device.value
  }

  /** A response after which the device has no further question of its own. */
  predicate MovesOn(m: Msg) { m.Response? && !(m.reply.MoreNeeded? && m.reply.queryOk) }

  lemma AnsweredExchange(cfg: Config, s: Auth, m: Msg, dev: string)
    requires m.Response? && Open(s) && GoodKbd(s.kbd.value) && Open(Answered(cfg, s, m, dev))
    ensures var s' := Answered(cfg, s, m, dev);
      && s.kbd.value.done <= s'.kbd.value.done
      && (if MovesOn(m) then Asked(s') !in s.kbd.value.done else Asked(s') == Asked(s))
  {
    var s2 := AfterReply(cfg, s, m);
    assert Answered(cfg, s, m, dev).kbd == s2.kbd && Answered(cfg, s, m, dev).responses == s2.responses;
    NextDeviceGood(cfg, s.rec.lists, s.kbd.value);
  }

  lemma ExchangeStep(cfg: Config, s: Auth, m: Msg)
    requires Open(s) && GoodKbd(s.kbd.value) && !m.Request? && Open(Step(cfg, s, m))
    ensures var s' := Step(cfg, s, m);
      && s.kbd.value.done <= s'.kbd.value.done
      && (if MovesOn(m) then Asked(s') !in s.kbd.value.done else Asked(s') == Asked(s))
  {
    if m.Response? {
      assert Answerable(cfg, s, m);
      AnsweredExchange(cfg, s, m, cfg.devices[s.kbd.value.device.value]);
    }
  }

  /** Only a request opens a question again. */
  lemma ClosedStays(cfg: Config, s: Auth, m: Msg)
    requires !Open(s) && !m.Request?
    ensures !Open(Step(cfg, s, m))
  {
  }

  lemma {:induction false} ClosedRun(cfg: Config, s: Auth, msgs: seq<Msg>)
    requires !Open(s) && forall m :: m in msgs ==> !m.Request?
    ensures !Open(Run(cfg, s, msgs))
    decreases |msgs|
  {
    if msgs != [] {
      ClosedStays(cfg, s, msgs[0]);
      ClosedRun(cfg, Step(cfg, s, msgs[0]), msgs[1..]);
    }
  }

  lemma {:induction false} ExchangeRun(cfg: Config, s: Auth, msgs: seq<Msg>, d: nat)
    requires GoodConfig(cfg) && Inv(cfg, s) && Open(s) && d in s.kbd.value.done
    requires Open(Run(cfg, s, msgs)) && forall m :: m in msgs ==> !m.Request?
    ensures var s' := Run(cfg, s, msgs);
      && d in s'.kbd.value.done
      && (Asked(s') == d <==> Asked(s) == d && forall m :: m in msgs ==> !MovesOn(m))
    decreases |msgs|
  {
    if msgs != [] {
      var (m, rest) := (msgs[0], msgs[1..]);
      assert msgs == [m] + rest;
      var s1 := Step(cfg, s, m);
      if !Open(s1) { ClosedRun(cfg, s1, rest); }
      StepKeeps(cfg, s, m);
      ExchangeStep(cfg, s, m);
      ExchangeRun(cfg, s1, rest, d);
    }
  }

  lemma {:induction false} RunSplit(cfg: Config, s: Auth, t1: seq<Msg>, t2: seq<Msg>)
    ensures Run(cfg, s, t1 + t2) == Run(cfg, Run(cfg, s, t1), t2)
    decreases |t1|
  {
    if t1 == [] {
      assert t1 + t2 == t2;
    } else {
      assert (t1 + t2)[1..] == t1[1..] + t2;
      RunSplit(cfg, Step(cfg, s, t1[0]), t1[1..], t2);
    }
  }

  /** At two points of one keyboard-interactive exchange the same device is asked exactly if every
      response in between was followed by a further question of that device. */
  lemma DevicesAskedOnce(cfg: Config, trace: seq<Msg>, i: nat, j: nat)
    requires GoodConfig(cfg) && i <= j <= |trace| && forall k :: i <= k < j ==> !trace[k].Request?
    requires Open(Before(cfg, trace, i)) && Open(Before(cfg, trace, j))
    ensures Asked(Before(cfg, trace, i)) == Asked(Before(cfg, trace, j)) <==>
      forall k :: i <= k < j ==> !MovesOn(trace[k])
  {
    var (first, msgs) := (trace[..i], trace[i..j]);
    assert first + msgs == trace[..j];
    RunSplit(cfg, Fresh, first, msgs);
    FreshInv(cfg);
    RunKeeps(cfg, Fresh, first);
    Within(trace, i, j);
    ExchangeRun(cfg, Before(cfg, trace, i), msgs, Asked(Before(cfg, trace, i)));
  }

  lemma Within(trace: seq<Msg>, i: nat, j: nat)
    requires i <= j <= |trace|
    ensures (forall m :: m in trace[i..j] ==> !m.Request?) <==> (forall k :: i <= k < j ==> !trace[k].Request?)
    ensures (forall m :: m in trace[i..j] ==> !MovesOn(m)) <==> (forall k :: i <= k < j ==> !MovesOn(trace[k]))
  {
    assert forall k :: i <= k < j ==> trace[i..j][k - i] == trace[k];
  }

  // ---- the identity

  lemma AttemptedKeepsIdentity(cfg: Config, s: Auth, name: string, t: Try, env: Env)
    ensures var s' := Attempted(cfg, s, name, t, env); s'.id == s.id && s'.tally.attempt == s.tally.attempt
  {
    var v := TryMethod(cfg, ResetForRequest(s), name, t);
    FinishKeepsIdentity(cfg, v.s, v.ok, name, None, v.key, env);
  }

  lemma RequestKeepsIdentity(cfg: Config, s: Auth, m: Msg)
    requires s.tally.attempt > 0 && m.Request?
    ensures var s' := InputRequest(cfg, s, m); s'.id == s.id && s'.tally.attempt >= s.tally.attempt
  {
    AttemptedKeepsIdentity(cfg, Begin(cfg, s, m.user, m.service, m.pwOk), m.name, m.attempt, m.env);
  }

  lemma FinishKeepsIdentity(cfg: Config, s: Auth, ok: bool, packetName: string, sub: Option<string>, key: Option<Key>, env: Env)
    ensures var s' := Finish(cfg, s, ok, packetName, sub, key, env); s'.id == s.id && s'.tally.attempt == s.tally.attempt
  {
  }

  lemma AnsweredKeepsIdentity(cfg: Config, s: Auth, m: Msg, dev: string)
    requires m.Response? && s.kbd.Some?
    ensures var s' := Answered(cfg, s, m, dev); s'.id == s.id && s'.tally.attempt >= s.tally.attempt
  {
    FinishKeepsIdentity(cfg, AfterReply(cfg, s, m), m.reply.Correct? && s.id.valid, cfg.names.kbdint,
                        Some(dev), None, m.env);
  }

  lemma ResponseKeepsIdentity(cfg: Config, s: Auth, m: Msg)
    requires m.Response?
    ensures var s' := InputResponse(cfg, s, m); s'.id == s.id && s'.tally.attempt >= s.tally.attempt
  {
    var s' := InputResponse(cfg, s, m);
    if !s.responses {
      assert s' == s || s' == Stop(s);
    } else if s.kbd.None? || s.kbd.value.device.None? || s.kbd.value.device.value >= |cfg.devices| {
      assert s' == Stop(s);
    } else if m.nresp != s.kbd.value.nreq || m.nresp > MAX_REPLIES {
      assert s' == Stop(s.(postponed := false));
    } else {
      var dev := cfg.devices[s.kbd.value.device.value];
      assert s' == Answered(cfg, s, m, dev);
      AnsweredKeepsIdentity(cfg, s, m, dev);
    }
  }

  lemma StepKeepsIdentity(cfg: Config, s: Auth, m: Msg)
    requires s.tally.attempt > 0
    ensures var s' := Step(cfg, s, m); s'.id == s.id && s'.tally.attempt >= s.tally.attempt
  {
    if m.Request? {
      RequestKeepsIdentity(cfg, s, m);
    } else if m.Response? {
      ResponseKeepsIdentity(cfg, s, m);
    }
  }

  /** The first request fixes user, service and validity for the rest of the run. */
  lemma {:induction false} IdentityIsFixed(cfg: Config, s: Auth, trace: seq<Msg>)
    requires s.tally.attempt > 0
    ensures Run(cfg, s, trace).id == s.id
    decreases |trace|
  {
    if trace != [] {
      StepKeepsIdentity(cfg, s, trace[0]);
      IdentityIsFixed(cfg, Step(cfg, s, trace[0]), trace[1..]);
    }
  }

  // ---- "method not in AuthenticationMethods"

  /** Only keyboard-interactive entries carry a submethod. */
  predicate OnlyKbdintSubs(cfg: Config) {
    && (forall m :: m in cfg.table ==> (m.kind.KbdintMethod? <==> m.name == cfg.names.kbdint))
    && (forall list :: list in SetupLists(cfg) ==>
          forall entry :: entry in Entries(list) && ':' in entry ==> BaseName(entry) == cfg.names.kbdint)
  }

  lemma BaseOfSub(name: string, entry: string)
    requires ':' !in name && name + ":" <= entry
    ensures ':' in entry && BaseName(entry) == name
  {
    FindAfter(name, entry, ':');
    assert entry[|name|] == ':';
    assert Find(entry[|name|..], ':') == 0;
  }

  /** A method that the lists allow can be consumed from them, unless all they offer is the
      method with a submethod that was not given. */
  lemma AllowedIsFound(r: Record, name: string, sub: Option<string>)
    requires RecordInv(r) && name != "" && Plain(name, sub) && Allowed(r.lists, name, sub)
    requires sub.None? ==>
      forall list, entry :: list in r.origin && entry in Entries(list) && ':' in entry ==> BaseName(entry) != name
    ensures UpdateLists(r.lists, name, sub).found
  {
    AllowedMeaning(r.lists, name, sub);
    UpdateListsMeaning(r.lists, name, sub);
    var i :| 0 <= i < |r.lists| && ListStartsWith(r.lists[i], name, sub) != MatchNone;
    var rem := r.lists[i];
    assert Progress(r.origin[i], rem, r.accepted);
    if rem != "" {
      if sub.None? { NeverPartial(r, i, name); }
      StartsWithMeansFirstEntry(rem, name, sub);
      RemoveDropsFirstEntry(rem, name, sub);
    }
  }

  lemma NeverPartial(r: Record, i: nat, name: string)
    requires RecordInv(r) && i < |r.lists| && r.lists[i] != "" && name != "" && Plain(name, None)
    requires forall list, entry :: list in r.origin && entry in Entries(list) && ':' in entry ==> BaseName(entry) != name
    ensures !ListStartsWith(r.lists[i], name, None).MatchPartial?
  {
    var rem := r.lists[i];
    assert Progress(r.origin[i], rem, r.accepted);
    StartsWithMeansFirstEntry(rem, name, None);
    if ListStartsWith(rem, name, None).MatchPartial? {
      var entry := Entries(rem)[0];
      var all := Entries(r.origin[i]);
      assert entry == all[|all| - |Entries(rem)|];
      BaseOfSub(name, entry);
      assert false;
    }
  }

  /** A success ends in the fatal "method not in AuthenticationMethods" exactly if lists are
      configured and none of what remains of them begins with an entry that it satisfies. */
  lemma UnwantedExactly(cfg: Config, s: Auth, e: Success, env: Env)
    requires RecordInv(s.rec) && !s.notInLists && e.name != "" && Plain(e.name, e.sub)
    ensures Accept(cfg, s, e, env).notInLists <==>
      && Configured(cfg)
      && forall i :: 0 <= i < |s.rec.lists| ==>
           s.rec.lists[i] == "" || Entries(s.rec.lists[i]) == [] || !Satisfies(Entries(s.rec.lists[i])[0], e.name, e.sub)
  {
    var lists := s.rec.lists;
    UpdateListsMeaning(lists, e.name, e.sub);
    forall i | 0 <= i < |lists|
      ensures RemoveMethod(lists[i], e.name, e.sub).Some? <==>
        lists[i] != "" && Entries(lists[i]) != [] && Satisfies(Entries(lists[i])[0], e.name, e.sub)
    {
      assert Progress(s.rec.origin[i], lists[i], s.rec.accepted);
      RemoveDropsFirstEntry(lists[i], e.name, e.sub);
    }
  }

  lemma {:induction false} ByNameKbdint(cfg: Config, table: seq<AuthMethod>)
    requires forall m :: m in table ==> m.synonym != Some(cfg.names.kbdint)
    ensures var m := ByName(table, cfg.names.kbdint); m.Some? ==> m.value.name == cfg.names.kbdint
  {
    if table != [] {
      ByNameKbdint(cfg, table[1..]);
    }
  }

  lemma FinishFinds(cfg: Config, s: Auth, ok: bool, packetName: string, sub: Option<string>, key: Option<Key>, env: Env)
    requires var m := ByName(cfg.table, packetName);
      ok && m.Some? && Configured(cfg) ==> UpdateLists(s.rec.lists, m.value.name, sub).found
    ensures Finish(cfg, s, ok, packetName, sub, key, env).notInLists == s.notInLists
  {
    var m := ByName(cfg.table, packetName);
    if ok && m.Some? {
      AcceptFinds(cfg, s, Success(m.value.name, sub, key), env);
    }
  }

  lemma AcceptFinds(cfg: Config, s: Auth, e: Success, env: Env)
    requires Configured(cfg) ==> UpdateLists(s.rec.lists, e.name, e.sub).found
    ensures Accept(cfg, s, e, env).notInLists == s.notInLists
  {
  }

  lemma TryMethodAllowed(cfg: Config, s: Auth, name: string, t: Try)
    requires TryMethod(cfg, s, name, t).ok
    ensures var am := ByName(cfg.table, name);
      && am.Some? && !am.value.kind.KbdintMethod?
      && MethodAllowed(cfg, s.rec.lists, am.value.name, None)
  {
  }

  lemma TryMethodFinds(cfg: Config, s: Auth, name: string, t: Try)
    requires GoodConfig(cfg) && OnlyKbdintSubs(cfg) && RecordInv(s.rec) && s.rec.origin == SetupLists(cfg)
    requires TryMethod(cfg, s, name, t).ok && Configured(cfg)
    ensures UpdateLists(s.rec.lists, ByName(cfg.table, name).value.name, None).found
  {
    TryMethodAllowed(cfg, s, name, t);
    ByNameIn(cfg.table, name);
    AllowedIsFound(s.rec, ByName(cfg.table, name).value.name, None);
  }

  lemma AttemptedFinds(cfg: Config, s: Auth, name: string, t: Try, env: Env)
    requires GoodConfig(cfg) && OnlyKbdintSubs(cfg) && RecordInv(s.rec) && s.rec.origin == SetupLists(cfg)
    ensures Attempted(cfg, s, name, t, env).notInLists == s.notInLists
  {
    var s2 := ResetForRequest(s);
    var v := TryMethod(cfg, s2, name, t);
    if v.ok && Configured(cfg) {
      TryMethodFinds(cfg, s2, name, t);
    }
    FinishFinds(cfg, v.s, v.ok, name, None, v.key, env);
  }

  lemma RequestFinds(cfg: Config, s: Auth, m: Msg)
    requires GoodConfig(cfg) && OnlyKbdintSubs(cfg) && Inv(cfg, s) && !s.stopped && !s.success && m.Request?
    ensures InputRequest(cfg, s, m).notInLists == s.notInLists
  {
    var s1 := Begin(cfg, s, m.user, m.service, m.pwOk);
    BeginKeeps(cfg, s, m.user, m.service, m.pwOk);
    if s.requests && !s1.stopped {
      AttemptedFinds(cfg, s1, m.name, m.attempt, m.env);
    }
  }

  lemma AnsweredFinds(cfg: Config, s: Auth, m: Msg, dev: string)
    requires m.Response? && s.kbd.Some?
    requires Configured(cfg) ==> UpdateLists(s.rec.lists, cfg.names.kbdint, Some(dev)).found
    requires forall a :: a in cfg.table ==> a.synonym != Some(cfg.names.kbdint)
    ensures Answered(cfg, s, m, dev).notInLists == s.notInLists
  {
    ByNameKbdint(cfg, cfg.table);
    FinishFinds(cfg, AfterReply(cfg, s, m), m.reply.Correct? && s.id.valid, cfg.names.kbdint, Some(dev), None, m.env);
  }

  lemma ResponseFinds(cfg: Config, s: Auth, m: Msg)
    requires GoodConfig(cfg) && Inv(cfg, s) && m.Response?
    ensures InputResponse(cfg, s, m).notInLists == s.notInLists
  {
    if Answerable(cfg, s, m) {
      var dev := cfg.devices[s.kbd.value.device.value];
      assert InputResponse(cfg, s, m) == Answered(cfg, s, m, dev);
      PendingIsFound(cfg, s);
      AnsweredFinds(cfg, s, m, dev);
    } else {
      assert var s' := InputResponse(cfg, s, m); s' == s || s' == Stop(s) || s' == Stop(s.(postponed := false));
    }
  }

  /** A right answer to the device asked now can be consumed. */
  lemma PendingIsFound(cfg: Config, s: Auth)
    requires GoodConfig(cfg) && Inv(cfg, s) && s.responses && s.kbd.Some? && s.kbd.value.device.Some?
    requires s.kbd.value.device.value < |cfg.devices|
    ensures Configured(cfg) ==>
      UpdateLists(s.rec.lists, cfg.names.kbdint, Some(cfg.devices[s.kbd.value.device.value])).found
  {
    var dev := cfg.devices[s.kbd.value.device.value];
    assert dev in cfg.devices;
    if Configured(cfg) { AllowedIsFound(s.rec, cfg.names.kbdint, Some(dev)); }
  }

  lemma {:induction false} RunFinds(cfg: Config, s: Auth, trace: seq<Msg>)
    requires GoodConfig(cfg) && OnlyKbdintSubs(cfg) && Inv(cfg, s) && !s.notInLists
    ensures !Run(cfg, s, trace).notInLists
    decreases |trace|
  {
    if trace != [] {
      var m := trace[0];
      if !s.stopped && !s.success {
        if m.Request? {
          RequestFinds(cfg, s, m);
        } else if m.Response? {
          ResponseFinds(cfg, s, m);
        }
      }
      StepKeeps(cfg, s, m);
      RunFinds(cfg, Step(cfg, s, m), trace[1..]);
    }
  }

  /** When only keyboard-interactive entries carry submethods, the fatal "method not in
      AuthenticationMethods" is unreachable: nothing succeeds that the lists do not ask for. */
  lemma SuccessIsAlwaysWanted(cfg: Config, trace: seq<Msg>)
    requires GoodConfig(cfg) && OnlyKbdintSubs(cfg)
    ensures !Run(cfg, Fresh, trace).notInLists
  {
    FreshInv(cfg);
    RunFinds(cfg, Fresh, trace);
  }

  /** One list, asking a plain method for a submethod. */
  function SubmethodConfig(names: NameSet, name: string, x: string): Config {
    Config([name + ":" + x], [AuthMethod(name, None, PasswordMethod, true)], 6, [], names)
  }

  lemma NoField(s: string, c: char)
    requires c !in s
    ensures Find(s, c) == |s|
  {
  }

  lemma SubmethodListKept(names: NameSet, name: string, x: string)
    requires name != "" && Plain(name, Some(x)) && names.any != name + ":" + x
    ensures var cfg := SubmethodConfig(names, name, x); SetupLists(cfg) == [name + ":" + x] && Configured(cfg)
  {
    var list := name + ":" + x;
    var cfg := SubmethodConfig(names, name, x);
    NoField(list, ',');
    BaseOfSub(name, list);
    assert Fields(list) == [list];
    assert MethodsValid(list, cfg.table, true);
    assert Required(cfg) == [list] && [list][1..] == [];
    assert KeepValid([list], cfg.table) == [list] + KeepValid([], cfg.table);
  }

  /** Such a list lets the method in, cannot be met by it, and the run dies of it. */
  lemma SubmethodIsFatal(names: NameSet, name: string, x: string, user: string)
    requires name != "" && Plain(name, Some(x)) && names.any != name + ":" + x
    ensures var cfg := SubmethodConfig(names, name, x);
      var s := Run(cfg, Fresh, [Service(names.userauth),
                                Request(user, names.connection, name, true, Simple(true, false), Env(false, false))]);
      s.notInLists && s.stopped && !s.success
  {
    var cfg := SubmethodConfig(names, name, x);
    var list := name + ":" + x;
    var m := Request(user, names.connection, name, true, Simple(true, false), Env(false, false));
    var trace := [Service(names.userauth), m];
    assert trace[1..] == [m] && [m][1..] == [];
    SubmethodListKept(names, name, x);
    var s0 := Step(cfg, Fresh, trace[0]);
    assert Run(cfg, Fresh, trace) == Run(cfg, s0, [m]) == Run(cfg, Step(cfg, s0, m), []);
    assert Step(cfg, s0, m) == InputRequest(cfg, s0, m);
    var s1 := Begin(cfg, s0, m.user, m.service, m.pwOk);
    assert s0.requests && !s0.stopped && s0.tally == Tally(0, 0);
    assert s1 == WithLists(cfg, Identify(cfg, s0, m.user, m.service, m.pwOk));
    assert s1.rec.lists == [list] && s1.id.valid && !s1.stopped;
    PartialOnly(list, name, x);
    var s2 := ResetForRequest(s1);
    assert Lookup(cfg, s2, name) == Some(cfg.table[0]);
    var v := TryMethod(cfg, s2, name, m.attempt);
    assert v.ok && v.s.rec.lists == [list];
    assert Finish(cfg, v.s, true, name, None, v.key, m.env) == Accept(cfg, v.s, Success(name, None, v.key), m.env);
  }

  lemma PartialOnly(list: string, name: string, x: string)
    requires list == name + ":" + x && Plain(name, Some(x))
    ensures Allowed([list], name, None) && !UpdateLists([list], name, None).found
  {
    assert list[|name|..] == ":" + x;
    assert ListStartsWith(list, name, None) == MatchPartial;
    AllowedMeaning([list], name, None);
    assert [list][0] == list;
    UpdateListsMeaning([list], name, None);
  }

  /** In the sources' own spelling: AuthenticationMethods "password:x" and a correct password. */
  lemma PasswordSubmethodIsFatal(user: string)
    ensures var cfg := SubmethodConfig(Names, "password", "x");
      Run(cfg, Fresh, [Service(Names.userauth),
                       Request(user, Names.connection, "password", true, Simple(true, false), Env(false, false))]).notInLists
  {
    assert |Names.any| == 3 && |"password" + ":" + "x"| == 10;
    SubmethodIsFatal(Names, "password", "x", user);
  }
}
