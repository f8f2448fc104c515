/**
 * The server's user authentication machine (auth2.c, auth2-chall.c): sections 5 and 5.1 of
 * RFC 4252. Passwords, signatures, devices and the account database are oracles carried by
 * the incoming messages; everything the code itself decides is modelled.
 */
module UserAuth {
  import opened Octets
  import opened MethodLists

  const MAX_ATTEMPTS: nat := 1024
  const MAX_REPLIES: nat := 100

  /** The names the code compares with; `Names` is what the sources spell out, and every result
      holds whatever the names are. */
  datatype NameSet = NameSet(userauth: string, connection: string, none: string, kbdint: string, any: string)
  const Names: NameSet := NameSet("ssh-userauth", "ssh-connection", "none", "keyboard-interactive", "any")

  /** A key as sshkey_equal_public sees it: certificates share `pub` with their plain key. */
  datatype Key = Key(pub: nat, cert: nat)

  datatype Config = Config(
    authMethods: seq<string>, table: seq<AuthMethod>, maxTries: nat, devices: seq<string>, names: NameSet)

  /** One keyboard-interactive exchange: names still to try, the device asked, those used up. */
  datatype Kbd = Kbd(devices: Option<string>, device: Option<nat>, done: set<nat>, nreq: nat)

  /** A method that succeeded; the machine does not read this record. */
  datatype Success = Success(name: string, sub: Option<string>, key: Option<Key>)

  /** Who is logging in, fixed by the first request. */
  datatype Identity = Identity(user: string, service: string, valid: bool)

  datatype Tally = Tally(attempt: nat, failures: nat)

  /** The configured lists as set up, what remains of them, the keys used and the successes. */
  datatype Record = Record(origin: seq<string>, lists: seq<string>, prevKeys: seq<Key>, accepted: seq<Success>)

  datatype Auth = Auth(
    id: Identity, tally: Tally, rec: Record,
    postponed: bool, success: bool, serverCaused: bool, noneEnabled: bool, kbd: Option<Kbd>,
    requests: bool, responses: bool,   // dispatch entries for USERAUTH_REQUEST and INFO_RESPONSE
    stopped: bool, notInLists: bool)   // fatal or disconnect; the "should not happen" fatal

  const Fresh: Auth :=
    Auth(Identity("", "", false), Tally(0, 0), Record([], [], [], []),
         false, false, false, true, None, false, false, false, false)

  // ---- oracles and messages

  datatype Device = Device(initOk: bool, queryOk: bool, nreq: nat)

  datatype Try =
    | Simple(ok: bool, serverCaused: bool)
    | Hostbased(key: Key, ok: bool)
    | Pubkey(parsed: Option<Key>, acceptable: bool, hasSig: bool, verified: bool, activated: bool)
    | Kbdint(devs: string, dev: Device)

  /** auth_root_allowed and the PAM account stack. */
  datatype Env = Env(rootDenied: bool, pamDenied: bool)

  /** respond(), and for a further question whether query() could build it. */
  datatype Reply = Correct | MoreNeeded(queryOk: bool, nreq: nat) | Wrong

  datatype Msg =
    | Service(service: string)
    | Request(user: string, service: string, name: string, pwOk: bool, attempt: Try, env: Env)
    | Response(nresp: nat, reply: Reply, dev: Device, env: Env)

  function Stop(s: Auth): Auth { s.(stopped := true) }

  // ---- configuration

  /** AuthenticationMethods after the "any" pseudo-method is normalised away. */
  function Required(cfg: Config): seq<string> {
    if cfg.authMethods == [cfg.names.any] then [] else cfg.authMethods
  }

  predicate Configured(cfg: Config) { Required(cfg) != [] }

  function KeepValid(lists: seq<string>, table: seq<AuthMethod>): seq<string>
  {
    if lists == [] then []
    else if MethodsValid(lists[0], table, true) then [lists[0]] + KeepValid(lists[1..], table)
    else KeepValid(lists[1..], table)
  }

  /** auth2_setup_methods_lists: the configured lists whose methods are all enabled. */
  function SetupLists(cfg: Config): seq<string> { KeepValid(Required(cfg), cfg.table) }

  function ByName(table: seq<AuthMethod>, name: string): Option<AuthMethod> {
    if table == [] then None
    else if table[0].name == name || table[0].synonym == Some(name) then Some(table[0])
    else ByName(table[1..], name)
  }

  predicate MethodAllowed(cfg: Config, lists: seq<string>, name: string, sub: Option<string>) {
    !Configured(cfg) || Allowed(lists, name, sub)
  }

  /** authmethod_lookup; "none" is enabled only once. */
  function Lookup(cfg: Config, s: Auth, name: string): Option<AuthMethod> {
    var m := ByName(cfg.table, name);
    if m.Some? && m.value.enabled && (m.value.kind.NoneMethod? ==> s.noneEnabled)
       && MethodAllowed(cfg, s.rec.lists, m.value.name, None)
    then m else None
  }

  // ---- keyboard-interactive

  predicate Candidate(cfg: Config, lists: seq<string>, done: set<nat>, prefix: string, i: nat) {
    && i < |cfg.devices| && i !in done
    && MethodAllowed(cfg, lists, cfg.names.kbdint, Some(cfg.devices[i]))
    && prefix <= cfg.devices[i]
  }

  function Candidates(cfg: Config, lists: seq<string>, done: set<nat>, prefix: string): set<nat> {
    set i: nat | 0 <= i < |cfg.devices| && Candidate(cfg, lists, done, prefix, i)
  }

  /** The largest candidate below `n`: the device the scan of kbdint_next_device ends on. */
  function LastCandidate(cfg: Config, lists: seq<string>, done: set<nat>, prefix: string, n: nat): (d: Option<nat>)
    ensures d.Some? ==> d.value < n && Candidate(cfg, lists, done, prefix, d.value)
    ensures d.None? ==> forall i :: 0 <= i < n ==> !Candidate(cfg, lists, done, prefix, i)
  {
    if n == 0 then None
    else if Candidate(cfg, lists, done, prefix, n - 1) then Some(n - 1)
    else LastCandidate(cfg, lists, done, prefix, n - 1)
  }

  /** kbdint_next_device. A client names devices by prefix; all that match are used up at once. */
  function NextDevice(cfg: Config, lists: seq<string>, k: Kbd): Kbd
    decreases if k.devices.Some? then 1 + |k.devices.value| else 0
  {
    var k0 := k.(device := None);
    if k.devices.None? || Find(k.devices.value, ',') == 0 then k0
    else
      var devs := k.devices.value;
      var len := Find(devs, ',');
      var prefix := devs[..len];
      var d := LastCandidate(cfg, lists, k.done, prefix, |cfg.devices|);
      var k1 := k0.(devices := if len < |devs| then Some(devs[len + 1..]) else None,
                    device := d, done := k.done + Candidates(cfg, lists, k.done, prefix));
      if d.Some? || k1.devices.None? then k1 else NextDevice(cfg, lists, k1)
  }

  function ChallengeStop(s: Auth): Auth { s.(kbd := None, responses := false) }

  function ChallengeStart(cfg: Config, s: Auth, dev: Device): (s': Auth)
    requires s.kbd.Some?
    ensures s'.rec == s.rec && s'.id == s.id && s'.notInLists == s.notInLists && s'.tally == s.tally
    ensures s'.serverCaused == s.serverCaused
  {
    var k := NextDevice(cfg, s.rec.lists, s.kbd.value);
    if k.device.None? || !dev.initOk || !dev.queryOk then ChallengeStop(s)
    else s.(kbd := Some(k.(nreq := dev.nreq)), responses := true, postponed := true)
  }

  function JoinNames(names: seq<string>): string {
    if names == [] then ""
    else if |names| == 1 then names[0]
    else names[0] + "," + JoinNames(names[1..])
  }

  function NewKbd(cfg: Config, devs: string): Kbd {
    Kbd(Some(if devs == "" then JoinNames(cfg.devices) else devs), None, {}, 0)
  }

  // ---- the methods

  predicate KeyUsed(prevKeys: seq<Key>, key: Key) {
    exists i :: 0 <= i < |prevKeys| && prevKeys[i].pub == key.pub
  }

  /** What m->userauth did: the context afterwards, the verdict and the public key it accepted. */
  datatype Verdict = Verdict(s: Auth, ok: bool, key: Option<Key>)

  /** auth2_record_key of an authenticated key. */
  function RecordKey(s: Auth, key: Key): Auth {
    s.(rec := s.rec.(prevKeys := s.rec.prevKeys + [key]))
  }

  /** No method touches the lists, the successes, the counters or the identity. */
  predicate OnlyMethodState(s: Auth, s': Auth) {
    && s'.id == s.id && s'.tally == s.tally && s'.notInLists == s.notInLists
    && s'.rec.lists == s.rec.lists && s'.rec.accepted == s.rec.accepted
  }

  function TryPubkey(s: Auth, t: Try): (v: Verdict)
    requires t.Pubkey?
    ensures OnlyMethodState(s, v.s)
    ensures v.ok ==> t.acceptable && t.hasSig && t.verified && t.activated
  {
    if t.parsed.None? || KeyUsed(s.rec.prevKeys, t.parsed.value) || !t.acceptable || !s.id.valid then Verdict(s, false, None)
    else if t.hasSig then
      if t.verified then Verdict(RecordKey(s, t.parsed.value), t.activated, t.parsed)
      else Verdict(s, false, None)
    else Verdict(if t.verified then s.(postponed := true) else s, false, None)
  }

  function TryKbdint(cfg: Config, s: Auth, t: Try): (v: Verdict)
    requires t.Kbdint?
    ensures OnlyMethodState(s, v.s) && !v.ok
  {
    Verdict(ChallengeStart(cfg, s.(kbd := Some(NewKbd(cfg, t.devs))), t.dev), false, None)
  }

  function TryHostbased(s: Auth, t: Try): (v: Verdict)
    requires t.Hostbased?
    ensures OnlyMethodState(s, v.s) && (v.ok ==> t.ok)
  {
    if t.ok && s.id.valid then Verdict(RecordKey(s, t.key), true, None) else Verdict(s, false, None)
  }

  /** "none" is disabled by its first use. */
  function TrySimple(s: Auth, t: Try, isNone: bool): (v: Verdict)
    requires t.Simple?
    ensures OnlyMethodState(s, v.s) && (v.ok ==> t.ok)
  {
    Verdict(s.(noneEnabled := s.noneEnabled && !isNone, serverCaused := t.serverCaused), t.ok, None)
  }

  /** m->userauth; a packet that does not parse as the method's ends the connection. */
  function RunMethod(cfg: Config, s: Auth, m: AuthMethod, t: Try): (v: Verdict)
    ensures OnlyMethodState(s, v.s)
  {
    if m.kind.PubkeyMethod? && t.Pubkey? then TryPubkey(s, t)
    else if m.kind.KbdintMethod? && t.Kbdint? then TryKbdint(cfg, s, t)
    else if m.kind.HostbasedMethod? && t.Hostbased? then TryHostbased(s, t)
    else if (m.kind.NoneMethod? || m.kind.PasswordMethod?) && t.Simple? then TrySimple(s, t, m.kind.NoneMethod?)
    else Verdict(Stop(s), false, None)
  }

  // ---- userauth_finish

  function Refuse(cfg: Config, t: Tally, name: string, partial: bool, serverCaused: bool): Tally {
    if !partial && !serverCaused && (t.attempt > 1 || name != cfg.names.none)
    then t.(failures := t.failures + 1) else t
  }

  function Counted(cfg: Config, s: Auth, t: Tally): Auth {
    s.(tally := t, stopped := s.stopped || t.failures >= cfg.maxTries)
  }

  /** The open question is left alone. */
  predicate SameExchange(s: Auth, s': Auth) {
    s'.kbd == s.kbd && s'.responses == s.responses && s'.serverCaused == s.serverCaused
  }

  function Conclude(cfg: Config, s: Auth, ok: bool, partial: bool, name: string, env: Env): (s': Auth)
    ensures SameExchange(s, s')
    ensures s'.rec == s.rec && s'.id == s.id && s'.notInLists == s.notInLists && s'.tally.attempt == s.tally.attempt
  {
    if s.postponed then s
    else if !ok then Counted(cfg, s, Refuse(cfg, s.tally, name, partial, s.serverCaused))
    else if env.pamDenied then Stop(s)
    else s.(success := true, requests := false)
  }

  function Finish(cfg: Config, s: Auth, ok: bool, packetName: string, sub: Option<string>, key: Option<Key>, env: Env): (s': Auth)
    ensures SameExchange(s, s')
  {
    if !ok then Conclude(cfg, s, false, false, packetName, env)
    else
      var m := ByName(cfg.table, packetName);
      if !s.id.valid || s.postponed || m.None? then Stop(s)
      else if env.rootDenied then Conclude(cfg, s, false, false, m.value.name, env)
      else Accept(cfg, s, Success(m.value.name, sub, key), env)
  }

  /** Consume a success from the configured lists. */
  function AcceptListed(cfg: Config, s: Auth, e: Success, env: Env): (s': Auth)
    ensures SameExchange(s, s')
    ensures s'.rec.accepted == s.rec.accepted && s'.id == s.id && s'.tally.attempt == s.tally.attempt
    ensures UpdateLists(s.rec.lists, e.name, e.sub).found ==> s'.notInLists == s.notInLists
  {
    var u := UpdateLists(s.rec.lists, e.name, e.sub);
    if !u.found then Stop(s).(notInLists := true)
    else Conclude(cfg, s.(rec := s.rec.(lists := u.lists)), u.complete, !u.complete, e.name, env)
  }

  /** A method has succeeded: without lists that is enough. */
  function Accept(cfg: Config, s: Auth, e: Success, env: Env): (s': Auth)
    ensures SameExchange(s, s')
    ensures s'.rec.accepted == s.rec.accepted + [e] && s'.id == s.id && s'.tally.attempt == s.tally.attempt
    ensures !Configured(cfg) || UpdateLists(s.rec.lists, e.name, e.sub).found ==> s'.notInLists == s.notInLists
  {
    var s1 := s.(rec := s.rec.(accepted := s.rec.accepted + [e]));
    if Configured(cfg) then AcceptListed(cfg, s1, e, env) else Conclude(cfg, s1, true, false, e.name, env)
  }

  // ---- message handlers

  function InputService(cfg: Config, s: Auth, service: string): Auth {
    if service == cfg.names.userauth && !s.success then s.(requests := true) else Stop(s)
  }

  function UserName(raw: string): string { raw[..Find(raw, ':')] }

  function Identify(cfg: Config, s: Auth, user: string, service: string, pwOk: bool): Auth {
    s.(tally := s.tally.(attempt := 1),
       id := Identity(UserName(user), service, pwOk && service == cfg.names.connection))
  }

  function WithLists(cfg: Config, s: Auth): (s': Auth)
    ensures SameExchange(s, s') && s'.notInLists == s.notInLists
  {
    var lists := SetupLists(cfg);
    s.(rec := s.rec.(origin := lists, lists := lists), stopped := s.stopped || (Configured(cfg) && lists == []))
  }

  function BeginFirst(cfg: Config, s: Auth, user: string, service: string, pwOk: bool): Auth {
    WithLists(cfg, Identify(cfg, s, user, service, pwOk))
  }

  function BeginLater(s: Auth, user: string, service: string): Auth {
    s.(tally := s.tally.(attempt := s.tally.attempt + 1),
       stopped := s.stopped || UserName(user) != s.id.user || service != s.id.service)
  }

  /** The part of input_userauth_request before a method is tried. */
  function Begin(cfg: Config, s: Auth, user: string, service: string, pwOk: bool): (s': Auth)
    ensures SameExchange(s, s') && s'.tally.failures == s.tally.failures
    ensures s'.rec.accepted == s.rec.accepted && s'.tally.attempt >= s.tally.attempt
    ensures !s'.stopped ==> s'.tally.attempt == s.tally.attempt + 1
    ensures s.tally.attempt > 0 ==> s'.id == s.id
    ensures s'.notInLists == s.notInLists
  {
    if s.tally.attempt >= MAX_ATTEMPTS then Stop(s)
    else if s.tally.attempt == 0 then BeginFirst(cfg, s, user, service, pwOk)
    else BeginLater(s, user, service)
  }

  function ResetForRequest(s: Auth): Auth {
    ChallengeStop(s).(postponed := false, serverCaused := false)
  }

  /** Look the method up and, if it may be used now, try it. */
  function TryMethod(cfg: Config, s: Auth, name: string, t: Try): (v: Verdict)
    ensures OnlyMethodState(s, v.s)
  {
    var am := Lookup(cfg, s, name);
    if am.Some? && s.tally.failures < cfg.maxTries then RunMethod(cfg, s, am.value, t) else Verdict(s, false, None)
  }

  /** Try the method of an admitted request and finish. */
  function Attempted(cfg: Config, s: Auth, name: string, t: Try, env: Env): Auth {
    var v := TryMethod(cfg, ResetForRequest(s), name, t);
    if v.s.stopped then v.s else Finish(cfg, v.s, v.ok, name, None, v.key, env)
  }

  function InputRequest(cfg: Config, s: Auth, m: Msg): Auth
    requires m.Request?
  {
    if !s.requests then s
    else
      var s1 := Begin(cfg, s, m.user, m.service, m.pwOk);
      if s1.stopped then s1 else Attempted(cfg, s1, m.name, m.attempt, m.env)
  }

  /** The context once the device has judged the answers. */
  function AfterReply(cfg: Config, s: Auth, m: Msg): (s': Auth)
    requires m.Response? && s.kbd.Some?
    ensures s'.rec == s.rec && s'.id == s.id && s'.notInLists == s.notInLists && s'.tally == s.tally
    ensures s'.serverCaused == s.serverCaused
  {
    var s1 := s.(postponed := false);
    if m.reply.MoreNeeded? && m.reply.queryOk
    then s1.(postponed := true, kbd := Some(s.kbd.value.(nreq := m.reply.nreq)))
    else if m.reply.Correct? && s.id.valid then ChallengeStop(s1)
    else ChallengeStart(cfg, s1, m.dev)
  }

  function Answered(cfg: Config, s: Auth, m: Msg, dev: string): Auth
    requires m.Response? && s.kbd.Some?
  {
    Finish(cfg, AfterReply(cfg, s, m), m.reply.Correct? && s.id.valid, cfg.names.kbdint, Some(dev), None, m.env)
  }

  function InputResponse(cfg: Config, s: Auth, m: Msg): Auth
    requires m.Response?
  {
    if !s.responses then if s.tally.attempt == 0 then s else Stop(s)
    else if s.kbd.None? || s.kbd.value.device.None? || s.kbd.value.device.value >= |cfg.devices| then Stop(s)
    else
      var k := s.kbd.value;
      if m.nresp != k.nreq || m.nresp > MAX_REPLIES then Stop(s.(postponed := false))
      else Answered(cfg, s, m, cfg.devices[k.device.value])
  }

  function Step(cfg: Config, s: Auth, m: Msg): Auth {
    if s.stopped || s.success then s
    else match m
      case Service(service) => InputService(cfg, s, service)
      case Request(_, _, _, _, _, _) => InputRequest(cfg, s, m)
      case Response(_, _, _, _) => InputResponse(cfg, s, m)
  }

  function Run(cfg: Config, s: Auth, trace: seq<Msg>): Auth
    decreases |trace|
  {
    if trace == [] then s else Run(cfg, Step(cfg, s, trace[0]), trace[1..])
  }

  // ---- subsequences

  predicate Meets(entry: string, e: Success) { Satisfies(entry, e.name, e.sub) }

  /** The entries occur in order, not necessarily adjacent, among the successes. */
  predicate Embeds(entries: seq<string>, log: seq<Success>)
    decreases |log|
  {
    entries == [] ||
    (log != [] &&
     var (e, n) := (log[|log| - 1], |entries| - 1);
     ((Meets(entries[n], e) && Embeds(entries[..n], log[..|log| - 1])) || Embeds(entries, log[..|log| - 1])))
  }

  lemma EmbedsGrow(entries: seq<string>, log: seq<Success>, e: Success)
    requires Embeds(entries, log)
    ensures Embeds(entries, log + [e])
  {
    assert (log + [e])[..|log|] == log;
  }

  lemma EmbedsExtend(entries: seq<string>, x: string, log: seq<Success>, e: Success)
    requires Embeds(entries, log) && Meets(x, e)
    ensures Embeds(entries + [x], log + [e])
  {
    assert (log + [e])[..|log|] == log;
    assert (entries + [x])[..|entries|] == entries;
  }

  predicate Increasing(idx: seq<nat>, bound: nat) {
    && (forall k :: 0 <= k < |idx| ==> idx[k] < bound)
    && (forall j, k :: 0 <= j < k < |idx| ==> idx[j] < idx[k])
  }

  /** Positions at which the successes meet the entries one after the other. */
  predicate MetAt(entries: seq<string>, log: seq<Success>, idx: seq<nat>) {
    && |idx| == |entries| && Increasing(idx, |log|)
    && (forall k :: 0 <= k < |idx| ==> Meets(entries[k], log[idx[k]]))
  }

  lemma {:induction false} EmbedsPositions(entries: seq<string>, log: seq<Success>) returns (idx: seq<nat>)
    requires Embeds(entries, log)
    ensures MetAt(entries, log, idx)
    decreases |log|
  {
    if entries == [] {
      idx := [];
    } else {
      var (front, n) := (log[..|log| - 1], |entries| - 1);
      if Meets(entries[n], log[|log| - 1]) && Embeds(entries[..n], front) {
        var idx0 := EmbedsPositions(entries[..n], front);
        idx := idx0 + [|log| - 1];
      } else {
        idx := EmbedsPositions(entries, front);
      }
    }
  }

  // ---- invariants

  /** What the static method and device tables of the sources satisfy. */
  predicate GoodConfig(cfg: Config) {
    && cfg.maxTries >= 1
    && (forall m :: m in cfg.table ==> m.name != "" && ',' !in m.name && ':' !in m.name && m.synonym != Some(cfg.names.kbdint))
    && (forall d :: d in cfg.devices ==> ',' !in d)
    && cfg.names.kbdint != "" && Plain(cfg.names.kbdint, None)
  }

  predicate Suffix<T(==)>(part: seq<T>, whole: seq<T>) {
    |part| <= |whole| && part == whole[|whole| - |part|..]
  }

  /** `left` is what remains of `all` after its front was met in order. */
  predicate Consumed(all: seq<string>, left: seq<string>, log: seq<Success>) {
    Suffix(left, all) && Embeds(all[..|all| - |left|], log)
  }

  /** A remaining list is a suffix of the configured one, and what was dropped was met in order. */
  predicate Progress(orig: string, rem: string, log: seq<Success>) {
    WellFormed(rem) && Suffix(rem, orig) && Consumed(Entries(orig), Entries(rem), log)
  }

  ghost predicate ListsInv(origin: seq<string>, lists: seq<string>, accepted: seq<Success>) {
    |lists| == |origin| && forall i :: 0 <= i < |lists| ==> Progress(origin[i], lists[i], accepted)
  }

  lemma {:induction false} KeptAreValid(lists: seq<string>, table: seq<AuthMethod>)
    ensures forall l :: l in KeepValid(lists, table) <==> l in lists && MethodsValid(l, table, true)
  {
    if lists != [] {
      KeptAreValid(lists[1..], table);
    }
  }

  lemma SetupProgress(cfg: Config)
    requires GoodConfig(cfg)
    ensures ListsInv(SetupLists(cfg), SetupLists(cfg), [])
  {
    var lists := SetupLists(cfg);
    KeptAreValid(Required(cfg), cfg.table);
    forall i | 0 <= i < |lists|
      ensures Progress(lists[i], lists[i], [])
    {
      var l := lists[i];
      assert l in lists;
      ValidIsWellFormed(l, cfg.table, true);
      assert l[|l| - |l|..] == l;
      var all := Entries(l);
      assert all[|all| - |all|..] == all && all[..|all| - |all|] == [];
    }
  }

  lemma ProgressKept(orig: string, rem: string, log: seq<Success>, e: Success)
    requires Progress(orig, rem, log)
    ensures Progress(orig, rem, log + [e])
  {
    var (all, left) := (Entries(orig), Entries(rem));
    EmbedsGrow(all[..|all| - |left|], log, e);
  }

  lemma SuffixOfSuffix<T>(whole: seq<T>, part: seq<T>, part': seq<T>)
    requires Suffix(part, whole) && Suffix(part', part)
    ensures Suffix(part', whole)
  {
  }

  lemma ConsumeNext(all: seq<string>, left: seq<string>, left': seq<string>, log: seq<Success>, e: Success)
    requires Consumed(all, left, log) && left != [] && left == [left[0]] + left' && Meets(left[0], e)
    ensures Consumed(all, left', log + [e])
  {
    var n := |all| - |left|;
    EmbedsExtend(all[..n], left[0], log, e);
    assert left' == left[1..];
    assert all[..n] + [left[0]] == all[..n + 1];
  }

  lemma ProgressMade(orig: string, rem: string, rem': string, log: seq<Success>, e: Success)
    requires Progress(orig, rem, log) && RemoveMethod(rem, e.name, e.sub) == Some(rem')
    requires e.name != "" && Plain(e.name, e.sub)
    ensures Progress(orig, rem', log + [e])
  {
    RemoveDropsFirstEntry(rem, e.name, e.sub);
    ConsumeNext(Entries(orig), Entries(rem), Entries(rem'), log, e);
    SuffixOfSuffix(orig, rem, rem');
  }

  lemma UpdateKeepsLists(origin: seq<string>, lists: seq<string>, accepted: seq<Success>, e: Success)
    requires ListsInv(origin, lists, accepted) && e.name != "" && Plain(e.name, e.sub)
    ensures ListsInv(origin, lists, accepted + [e])
    ensures ListsInv(origin, UpdateLists(lists, e.name, e.sub).lists, accepted + [e])
  {
    var u := UpdateLists(lists, e.name, e.sub);
    UpdateListsMeaning(lists, e.name, e.sub);
    forall i | 0 <= i < |lists|
      ensures Progress(origin[i], lists[i], accepted + [e])
      ensures Progress(origin[i], u.lists[i], accepted + [e])
    {
      ProgressKept(origin[i], lists[i], accepted, e);
      assert Updated(lists[i], u.lists[i], e.name, e.sub);
      if u.lists[i] != lists[i] {
        ProgressMade(origin[i], lists[i], u.lists[i], accepted, e);
      }
    }
  }

  /** Keys of accepted publickey steps are recorded and differ from each other. */
  ghost predicate KeysInv(prevKeys: seq<Key>, accepted: seq<Success>) {
    && (forall i :: 0 <= i < |accepted| && accepted[i].key.Some? ==> KeyUsed(prevKeys, accepted[i].key.value))
    && (forall i, j :: 0 <= i < j < |accepted| && accepted[i].key.Some? && accepted[j].key.Some?
                       ==> accepted[i].key.value.pub != accepted[j].key.value.pub)
  }

  ghost predicate TallyInv(cfg: Config, t: Tally, stopped: bool) {
    (!stopped ==> t.failures < cfg.maxTries) && t.attempt <= MAX_ATTEMPTS
  }

  /** The device asked is used up. */
  predicate GoodKbd(k: Kbd) { k.device.Some? ==> k.device.value in k.done }

  ghost predicate Waiting(cfg: Config, lists: seq<string>, kbd: Option<Kbd>) {
    && kbd.Some? && kbd.value.device.Some? && kbd.value.device.value < |cfg.devices|
    && MethodAllowed(cfg, lists, cfg.names.kbdint, Some(cfg.devices[kbd.value.device.value]))
  }

  ghost predicate KbdInv(cfg: Config, lists: seq<string>, kbd: Option<Kbd>, responses: bool) {
    && (kbd.Some? ==> GoodKbd(kbd.value))
    && (responses ==> Waiting(cfg, lists, kbd))
  }

  ghost predicate RecordInv(r: Record) {
    ListsInv(r.origin, r.lists, r.accepted) && KeysInv(r.prevKeys, r.accepted)
  }

  predicate SomeListDone(lists: seq<string>) { "" in lists }

  ghost predicate StartedInv(cfg: Config, attempt: nat, id: Identity, r: Record) {
    && (attempt == 0 ==> r.origin == [])
    && (attempt > 0 ==> r.origin == SetupLists(cfg))
    && (r.accepted != [] ==> id.valid && attempt > 0)
  }

  ghost predicate OutcomeInv(cfg: Config, success: bool, r: Record) {
    success ==> r.accepted != [] && (Configured(cfg) ==> SomeListDone(r.lists))
  }

  ghost predicate Inv(cfg: Config, s: Auth) {
    && RecordInv(s.rec) && TallyInv(cfg, s.tally, s.stopped)
    && KbdInv(cfg, s.rec.lists, s.kbd, s.responses) && (s.responses ==> s.tally.attempt > 0)
    && StartedInv(cfg, s.tally.attempt, s.id, s.rec) && OutcomeInv(cfg, s.success, s.rec)
  }

  // ---- keyboard-interactive devices

  /** kbdint_next_device asks a device that the lists allow now and that was not used up before,
      and uses it up. */
  lemma {:induction false} NextDeviceGood(cfg: Config, lists: seq<string>, k: Kbd)
    ensures var k' := NextDevice(cfg, lists, k);
      && GoodKbd(k') && k.done <= k'.done
      && (k'.device.Some? ==>
            && k'.device.value < |cfg.devices| && k'.device.value !in k.done
            && MethodAllowed(cfg, lists, cfg.names.kbdint, Some(cfg.devices[k'.device.value])))
    decreases if k.devices.Some? then 1 + |k.devices.value| else 0
  {
    if k.devices.Some? && Find(k.devices.value, ',') != 0 {
      var devs := k.devices.value;
      var len := Find(devs, ',');
      var prefix := devs[..len];
      var d := LastCandidate(cfg, lists, k.done, prefix, |cfg.devices|);
      var k1 := k.(devices := if len < |devs| then Some(devs[len + 1..]) else None,
                   device := d, done := k.done + Candidates(cfg, lists, k.done, prefix));
      assert GoodKbd(k1);
      if !(d.Some? || k1.devices.None?) {
        NextDeviceGood(cfg, lists, k1);
      }
    }
  }

  lemma Frame(cfg: Config, s: Auth, s': Auth)
    requires Inv(cfg, s)
    requires s'.id == s.id && s'.tally == s.tally && s'.rec == s.rec && s'.success == s.success
    requires s.stopped ==> s'.stopped
    requires KbdInv(cfg, s.rec.lists, s'.kbd, s'.responses) && (s'.responses ==> s.tally.attempt > 0)
    ensures Inv(cfg, s')
  {
  }

  lemma ChallengeKeeps(cfg: Config, s: Auth, dev: Device)
    requires Inv(cfg, s) && s.kbd.Some? && s.tally.attempt > 0
    ensures var s' := ChallengeStart(cfg, s, dev);
      Inv(cfg, s') && s'.tally == s.tally && s'.success == s.success && s'.stopped == s.stopped
  {
    NextDeviceGood(cfg, s.rec.lists, s.kbd.value);
    Frame(cfg, s, ChallengeStart(cfg, s, dev));
  }

  // ---- userauth_finish keeps the invariant

  lemma ConcludeKeeps(cfg: Config, s: Auth, ok: bool, partial: bool, name: string, env: Env)
    requires Inv(cfg, s) && !s.stopped && !s.success
    requires ok ==> OutcomeInv(cfg, true, s.rec)
    ensures Inv(cfg, Conclude(cfg, s, ok, partial, name, env))
  {
  }

  /** A key about to be accepted has been recorded, and no earlier accepted step used it. */
  ghost predicate NewKey(prevKeys: seq<Key>, accepted: seq<Success>, key: Option<Key>) {
    key.Some? ==>
      && KeyUsed(prevKeys, key.value)
      && (forall i :: 0 <= i < |accepted| && accepted[i].key.Some? ==> accepted[i].key.value.pub != key.value.pub)
  }

  lemma {:induction false} ByNameIn(table: seq<AuthMethod>, name: string)
    ensures ByName(table, name).Some? ==> ByName(table, name).value in table
  {
    if table != [] {
      ByNameIn(table[1..], name);
    }
  }

  lemma AcceptKeepsKeys(prevKeys: seq<Key>, accepted: seq<Success>, e: Success)
    requires KeysInv(prevKeys, accepted) && NewKey(prevKeys, accepted, e.key)
    ensures KeysInv(prevKeys, accepted + [e])
  {
  }

  lemma RecordKeepsKeys(prevKeys: seq<Key>, accepted: seq<Success>, key: Key)
    requires KeysInv(prevKeys, accepted)
    ensures KeysInv(prevKeys + [key], accepted)
    ensures !KeyUsed(prevKeys, key) ==> NewKey(prevKeys + [key], accepted, Some(key))
  {
    var keys := prevKeys + [key];
    assert keys[|prevKeys|] == key;
    forall i | 0 <= i < |accepted| && accepted[i].key.Some?
      ensures KeyUsed(keys, accepted[i].key.value)
      ensures !KeyUsed(prevKeys, key) ==> accepted[i].key.value.pub != key.pub
    {
      assert KeyUsed(prevKeys, accepted[i].key.value);
      var j :| 0 <= j < |prevKeys| && prevKeys[j].pub == accepted[i].key.value.pub;
      assert keys[j] == prevKeys[j];
    }
  }

  lemma AcceptKeeps(cfg: Config, s: Auth, e: Success, env: Env)
    requires Inv(cfg, s) && !s.stopped && !s.success && s.tally.attempt > 0 && s.id.valid && !s.responses
    requires e.name != "" && Plain(e.name, e.sub) && NewKey(s.rec.prevKeys, s.rec.accepted, e.key)
    ensures Inv(cfg, Accept(cfg, s, e, env))
  {
    var r := s.rec.(accepted := s.rec.accepted + [e]);
    var u := UpdateLists(s.rec.lists, e.name, e.sub);
    AcceptKeepsKeys(s.rec.prevKeys, s.rec.accepted, e);
    UpdateKeepsLists(s.rec.origin, s.rec.lists, s.rec.accepted, e);
    UpdateListsMeaning(s.rec.lists, e.name, e.sub);
    var s1 := s.(rec := r);
    if !Configured(cfg) {
      ConcludeKeeps(cfg, s1, true, false, e.name, env);
    } else if u.found {
      ConcludeKeeps(cfg, s1.(rec := r.(lists := u.lists)), u.complete, !u.complete, e.name, env);
    }
  }

  lemma FinishKeeps(cfg: Config, s: Auth, ok: bool, packetName: string, sub: Option<string>, key: Option<Key>, env: Env)
    requires GoodConfig(cfg) && Inv(cfg, s) && !s.stopped && !s.success && s.tally.attempt > 0
    requires ok ==> !s.responses && NewKey(s.rec.prevKeys, s.rec.accepted, key)
    requires sub.Some? ==> ',' !in sub.value
    ensures Inv(cfg, Finish(cfg, s, ok, packetName, sub, key, env))
  {
    var m := ByName(cfg.table, packetName);
    if !ok {
      ConcludeKeeps(cfg, s, false, false, packetName, env);
    } else if s.id.valid && !s.postponed && m.Some? {
      ByNameIn(cfg.table, packetName);
      if env.rootDenied {
        ConcludeKeeps(cfg, s, false, false, m.value.name, env);
      } else {
        AcceptKeeps(cfg, s, Success(m.value.name, sub, key), env);
      }
    }
  }

  // ---- the handlers keep the invariant

  lemma FirstRequestKeeps(cfg: Config, s: Auth, user: string, service: string, pwOk: bool)
    requires GoodConfig(cfg) && Inv(cfg, s) && !s.stopped && !s.success && s.tally.attempt == 0
    ensures Inv(cfg, Begin(cfg, s, user, service, pwOk))
  {
    SetupProgress(cfg);
    var lists := SetupLists(cfg);
    var r := s.rec.(origin := lists, lists := lists);
    assert s.rec.accepted == [];
    assert RecordInv(r);
  }

  lemma BeginKeeps(cfg: Config, s: Auth, user: string, service: string, pwOk: bool)
    requires GoodConfig(cfg) && Inv(cfg, s) && !s.stopped && !s.success
    ensures var s' := Begin(cfg, s, user, service, pwOk);
      Inv(cfg, s') && !s'.success && (s'.stopped || s'.tally.attempt > 0)
  {
    if s.tally.attempt == 0 {
      FirstRequestKeeps(cfg, s, user, service, pwOk);
    } else if s.tally.attempt < MAX_ATTEMPTS {
      LaterRequestKeeps(cfg, s);
      var s1 := s.(tally := s.tally.(attempt := s.tally.attempt + 1));
      Frame(cfg, s1, Begin(cfg, s, user, service, pwOk));
    } else {
      Frame(cfg, s, Stop(s));
    }
  }

  lemma LaterRequestKeeps(cfg: Config, s: Auth)
    requires Inv(cfg, s) && 0 < s.tally.attempt < MAX_ATTEMPTS
    ensures Inv(cfg, s.(tally := s.tally.(attempt := s.tally.attempt + 1)))
  {
  }

  lemma RecordKeyKeeps(cfg: Config, s: Auth, key: Key)
    requires Inv(cfg, s)
    ensures Inv(cfg, RecordKey(s, key))
    ensures !KeyUsed(s.rec.prevKeys, key) ==>
              NewKey(RecordKey(s, key).rec.prevKeys, s.rec.accepted, Some(key))
  {
    RecordKeepsKeys(s.rec.prevKeys, s.rec.accepted, key);
  }

  /** What userauth_finish may rely on after a method was tried. */
  ghost predicate Tried(cfg: Config, s: Auth, v: Verdict) {
    && Inv(cfg, v.s) && v.s.success == s.success && v.s.tally == s.tally
    && (v.ok ==> !v.s.responses && NewKey(v.s.rec.prevKeys, v.s.rec.accepted, v.key))
  }

  lemma FlagsTried(cfg: Config, s: Auth, v: Verdict)
    requires Inv(cfg, s) && !s.responses && v.key.None?
    requires v.s == s.(postponed := v.s.postponed, serverCaused := v.s.serverCaused,
                       noneEnabled := v.s.noneEnabled, stopped := s.stopped || v.s.stopped)
    ensures Tried(cfg, s, v)
  {
    Frame(cfg, s, v.s);
  }

  lemma PubkeyTried(cfg: Config, s: Auth, t: Try)
    requires Inv(cfg, s) && !s.responses && t.Pubkey?
    ensures Tried(cfg, s, TryPubkey(s, t))
  {
    var v := TryPubkey(s, t);
    if v.key.Some? || v.s.rec != s.rec {
      RecordKeyKeeps(cfg, s, t.parsed.value);
    } else {
      FlagsTried(cfg, s, v);
    }
  }

  lemma KbdintTried(cfg: Config, s: Auth, t: Try)
    requires Inv(cfg, s) && s.tally.attempt > 0 && !s.responses && t.Kbdint?
    ensures Tried(cfg, s, TryKbdint(cfg, s, t))
  {
    var s1 := s.(kbd := Some(NewKbd(cfg, t.devs)));
    Frame(cfg, s, s1);
    ChallengeKeeps(cfg, s1, t.dev);
  }

  lemma HostbasedTried(cfg: Config, s: Auth, t: Try)
    requires Inv(cfg, s) && !s.responses && t.Hostbased?
    ensures Tried(cfg, s, TryHostbased(s, t))
  {
    if t.ok && s.id.valid {
      RecordKeyKeeps(cfg, s, t.key);
    }
  }

  lemma SimpleTried(cfg: Config, s: Auth, t: Try, isNone: bool)
    requires Inv(cfg, s) && !s.responses && t.Simple?
    ensures Tried(cfg, s, TrySimple(s, t, isNone))
  {
    FlagsTried(cfg, s, TrySimple(s, t, isNone));
  }

  lemma StopTried(cfg: Config, s: Auth)
    requires Inv(cfg, s) && !s.responses
    ensures Tried(cfg, s, Verdict(Stop(s), false, None))
  {
    FlagsTried(cfg, s, Verdict(Stop(s), false, None));
  }

  lemma RunMethodKeeps(cfg: Config, s: Auth, m: AuthMethod, t: Try)
    requires Inv(cfg, s) && !s.responses && s.tally.attempt > 0
    ensures Tried(cfg, s, RunMethod(cfg, s, m, t))
  {
    if m.kind.KbdintMethod? && t.Kbdint? {
      KbdintTried(cfg, s, t);
    } else if m.kind.PubkeyMethod? && t.Pubkey? {
      PubkeyTried(cfg, s, t);
    } else if m.kind.HostbasedMethod? && t.Hostbased? {
      HostbasedTried(cfg, s, t);
    } else if (m.kind.NoneMethod? || m.kind.PasswordMethod?) && t.Simple? {
      SimpleTried(cfg, s, t, m.kind.NoneMethod?);
    } else {
      StopTried(cfg, s);
    }
  }

  lemma TryMethodKeeps(cfg: Config, s: Auth, name: string, t: Try)
    requires Inv(cfg, s) && !s.responses && s.tally.attempt > 0
    ensures Tried(cfg, s, TryMethod(cfg, s, name, t))
  {
    var am := Lookup(cfg, s, name);
    if am.Some? && s.tally.failures < cfg.maxTries {
      RunMethodKeeps(cfg, s, am.value, t);
    }
  }

  lemma AttemptedKeeps(cfg: Config, s: Auth, name: string, t: Try, env: Env)
    requires GoodConfig(cfg) && Inv(cfg, s) && !s.stopped && !s.success && s.tally.attempt > 0
    ensures Inv(cfg, Attempted(cfg, s, name, t, env))
  {
    var s2 := ResetForRequest(s);
    Frame(cfg, s, s2);
    TryMethodKeeps(cfg, s2, name, t);
    var v := TryMethod(cfg, s2, name, t);
    if !v.s.stopped {
      FinishKeeps(cfg, v.s, v.ok, name, None, v.key, env);
    }
  }

  lemma RequestKeeps(cfg: Config, s: Auth, m: Msg)
    requires GoodConfig(cfg) && Inv(cfg, s) && !s.stopped && !s.success && m.Request?
    ensures Inv(cfg, InputRequest(cfg, s, m))
  {
    BeginKeeps(cfg, s, m.user, m.service, m.pwOk);
    var s1 := Begin(cfg, s, m.user, m.service, m.pwOk);
    if s.requests && !s1.stopped {
      AttemptedKeeps(cfg, s1, m.name, m.attempt, m.env);
    }
  }

  lemma ResponseKeeps(cfg: Config, s: Auth, m: Msg)
    requires GoodConfig(cfg) && Inv(cfg, s) && !s.stopped && !s.success && m.Response?
    ensures Inv(cfg, InputResponse(cfg, s, m))
  {
    if s.responses && m.nresp == s.kbd.value.nreq && m.nresp <= MAX_REPLIES {
      AfterReplyKeeps(cfg, s, m);
      var dev := cfg.devices[s.kbd.value.device.value];
      assert dev in cfg.devices;
      FinishKeeps(cfg, AfterReply(cfg, s, m), m.reply.Correct? && s.id.valid, cfg.names.kbdint, Some(dev), None, m.env);
      assert InputResponse(cfg, s, m)
          == Finish(cfg, AfterReply(cfg, s, m), m.reply.Correct? && s.id.valid, cfg.names.kbdint, Some(dev), None, m.env);
    } else {
      Frame(cfg, s, InputResponse(cfg, s, m));
    }
  }

  lemma AfterReplyKeeps(cfg: Config, s: Auth, m: Msg)
    requires Inv(cfg, s) && s.responses && m.Response? && !s.success && !s.stopped
    ensures var s2 := AfterReply(cfg, s, m);
      Inv(cfg, s2) && s2.tally == s.tally && !s2.success && !s2.stopped && (m.reply.Correct? && s.id.valid ==> !s2.responses)
  {
    var s1 := s.(postponed := false);
    if !(m.reply.MoreNeeded? && m.reply.queryOk) && !(m.reply.Correct? && s.id.valid) {
      Frame(cfg, s, s1);
      ChallengeKeeps(cfg, s1, m.dev);
    } else {
      Frame(cfg, s, AfterReply(cfg, s, m));
    }
  }

  lemma ServiceKeeps(cfg: Config, s: Auth, service: string)
    requires Inv(cfg, s)
    ensures Inv(cfg, InputService(cfg, s, service))
  {
    Frame(cfg, s, InputService(cfg, s, service));
  }

  lemma StepKeeps(cfg: Config, s: Auth, m: Msg)
    requires GoodConfig(cfg) && Inv(cfg, s)
    ensures Inv(cfg, Step(cfg, s, m))
  {
    if s.stopped || s.success {
      assert Step(cfg, s, m) == s;
    } else if m.Service? {
      ServiceKeeps(cfg, s, m.service);
      assert Step(cfg, s, m) == InputService(cfg, s, m.service);
    } else if m.Request? {
      RequestKeeps(cfg, s, m);
      assert Step(cfg, s, m) == InputRequest(cfg, s, m);
    } else {
      ResponseKeeps(cfg, s, m);
      assert Step(cfg, s, m) == InputResponse(cfg, s, m);
    }
  }

  lemma {:induction false} RunKeeps(cfg: Config, s: Auth, trace: seq<Msg>)
    requires GoodConfig(cfg) && Inv(cfg, s)
    ensures Inv(cfg, Run(cfg, s, trace))
    decreases |trace|
  {
    if trace != [] {
      StepKeeps(cfg, s, trace[0]);
      RunKeeps(cfg, Step(cfg, s, trace[0]), trace[1..]);
    }
  }
}
