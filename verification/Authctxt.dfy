/**
 * The mutable authentication context (struct Authctxt of auth.h): the loops and handlers of
 * auth2.c and auth2-chall.c in the form the sources have them, each proved to compute the
 * corresponding step of `UserAuth`.
 */
module AuthObject {
  import opened Octets
  import opened MethodLists
  import opened UserAuth

  /** The outcome of an update that has dealt with `done` and still has `rest` to do. */
  ghost function Resume(done: seq<string>, rest: seq<string>, name: string, sub: Option<string>, found: bool): Update {
    var u := UpdateLists(rest, name, sub);
    Update(done + u.lists, u.complete, found || u.found)
  }

  lemma ResumeStep(done: seq<string>, rest: seq<string>, name: string, sub: Option<string>, found: bool)
    requires rest != []
    ensures Resume(done, rest, name, sub, found) ==
      match RemoveMethod(rest[0], name, sub)
      case None => Resume(done + [rest[0]], rest[1..], name, sub, found)
      case Some(l) =>
        if l == "" then Update(done + [l] + rest[1..], true, true)
        else Resume(done + [l], rest[1..], name, sub, true)
  {
    var u := UpdateLists(rest[1..], name, sub);
    match RemoveMethod(rest[0], name, sub)
    case None => assert done + ([rest[0]] + u.lists) == done + [rest[0]] + u.lists;
    case Some(l) =>
      assert done + ([l] + u.lists) == done + [l] + u.lists;
      assert done + ([l] + rest[1..]) == done + [l] + rest[1..];
  }

  lemma ReplaceAt(a: seq<string>, i: nat, l: string)
    requires i < |a|
    ensures var a' := a[i := l];
      a'[..i + 1] == a[..i] + [l] && a'[i + 1..] == a[i..][1..] && a' == a[..i] + [l] + a[i..][1..]
  {
  }

  /** One turn of the loop at index i, on the whole array of lists. */
  lemma ResumeAt(a: seq<string>, i: nat, name: string, sub: Option<string>, found: bool)
    requires i < |a|
    ensures Resume(a[..i], a[i..], name, sub, found) ==
      match RemoveMethod(a[i], name, sub)
      case None => Resume(a[..i + 1], a[i + 1..], name, sub, found)
      case Some(l) =>
        var a' := a[i := l];
        if l == "" then Update(a', true, true) else Resume(a'[..i + 1], a'[i + 1..], name, sub, true)
  {
    ResumeStep(a[..i], a[i..], name, sub, found);
    match RemoveMethod(a[i], name, sub)
    case None => assert a[..i] + [a[i]] == a[..i + 1] && a[i..][1..] == a[i + 1..];
    case Some(l) => ReplaceAt(a, i, l);
  }

  class Authctxt {
    const cfg: Config

    var user: string
    var service: string
    var valid: bool
    var attempt: nat
    var failures: nat
    var postponed: bool
    var success: bool
    var serverCaused: bool
    var noneEnabled: bool
    var authMethods: seq<string>
    var prevKeys: seq<Key>
    var kbd: Option<Kbd>
    var requests: bool
    var responses: bool
    var stopped: bool
    ghost var notInLists: bool
    ghost var origin: seq<string>
    ghost var accepted: seq<Success>

    ghost function View(): Auth
      reads this
    {
      Auth(Identity(user, service, valid), Tally(attempt, failures),
           Record(origin, authMethods, prevKeys, accepted),
           postponed, success, serverCaused, noneEnabled, kbd, requests, responses, stopped, notInLists)
    }

    constructor (cfg: Config)
      ensures this.cfg == cfg && View() == Fresh
    {
      this.cfg := cfg;
      user, service, valid := "", "", false;
      attempt, failures := 0, 0;
      postponed, success, serverCaused, noneEnabled := false, false, false, true;
      authMethods, prevKeys, kbd := [], [], None;
      requests, responses, stopped := false, false, false;
      notInLists, origin, accepted := false, [], [];
    }

    /** auth2_method_allowed. */
    method IsMethodAllowed(name: string, sub: Option<string>) returns (ok: bool)
      ensures ok <==> MethodAllowed(cfg, authMethods, name, sub)
    {
      if |Required(cfg)| == 0 {
        return true;
      }
      for i := 0 to |authMethods|
        invariant Allowed(authMethods, name, sub) <==> Allowed(authMethods[i..], name, sub)
      {
        assert authMethods[i..][1..] == authMethods[i + 1..];
        if ListStartsWith(authMethods[i], name, sub) != MatchNone {
          return true;
        }
      }
      ok := false;
    }

    /** auth2_setup_methods_lists. */
    method SetupMethodsLists() returns (ok: bool)
      modifies this`authMethods, this`origin
      ensures authMethods == SetupLists(cfg) && origin == authMethods
      ensures ok <==> !(Configured(cfg) && authMethods == [])
    {
      authMethods := [];
      var required := Required(cfg);
      for i := 0 to |required|
        invariant authMethods + KeepValid(required[i..], cfg.table) == SetupLists(cfg)
      {
        assert required[i..][1..] == required[i + 1..];
        var good := CheckMethodsValid(required[i], cfg.table, true);
        if good {
          authMethods := authMethods + [required[i]];
        }
      }
      assert required[|required|..] == [];
      origin := authMethods;
      ok := |required| == 0 || |authMethods| != 0;
    }

    /** auth2_update_methods_lists: stop at the first list that becomes empty. */
    method UpdateMethodsLists(name: string, sub: Option<string>) returns (complete: bool, found: bool)
      modifies this`authMethods
      ensures UpdateLists(old(authMethods), name, sub) == Update(authMethods, complete, found)
    {
      ghost var target := UpdateLists(authMethods, name, sub);
      var i := 0;
      found := false;
      while i < |authMethods|
        invariant 0 <= i <= |authMethods|
        invariant target == Resume(authMethods[..i], authMethods[i..], name, sub, found)
      {
        var rest := RemoveMethod(authMethods[i], name, sub);
        ResumeAt(authMethods, i, name, sub, found);
        if rest.Some? {
          authMethods := authMethods[i := rest.value];
          found := true;
          if rest.value == "" {
            return true, true;
          }
        }
        i := i + 1;
      }
      complete := false;
    }

    /** auth2_key_already_used. */
    method IsKeyUsed(key: Key) returns (used: bool)
      ensures used <==> KeyUsed(prevKeys, key)
    {
      for i := 0 to |prevKeys|
        invariant forall k :: 0 <= k < i ==> prevKeys[k].pub != key.pub
      {
        if prevKeys[i].pub == key.pub {
          return true;
        }
      }
      used := false;
    }

    /** The scan of all devices inside kbdint_next_device. */
    method ScanDevices(done: set<nat>, prefix: string) returns (device: Option<nat>, done': set<nat>)
      ensures device == LastCandidate(cfg, authMethods, done, prefix, |cfg.devices|)
      ensures done' == done + Candidates(cfg, authMethods, done, prefix)
    {
      device, done' := None, done;
      for i := 0 to |cfg.devices|
        invariant device == LastCandidate(cfg, authMethods, done, prefix, i)
        invariant done' == done + (set j: nat | 0 <= j < i && Candidate(cfg, authMethods, done, prefix, j))
      {
        if i !in done' {
          var allowed := IsMethodAllowed(cfg.names.kbdint, Some(cfg.devices[i]));
          if allowed && prefix <= cfg.devices[i] {
            device := Some(i);
            done' := done' + {i};
          }
        }
      }
    }

    /** kbdint_next_device. */
    method GetNextDevice(k: Kbd) returns (k': Kbd)
      ensures k' == NextDevice(cfg, authMethods, k)
    {
      k' := k.(device := None);
      while k'.devices.Some?
        invariant k'.device.None?
        invariant NextDevice(cfg, authMethods, k') == NextDevice(cfg, authMethods, k)
        decreases if k'.devices.Some? then 1 + |k'.devices.value| else 0
      {
        var devs := k'.devices.value;
        var len := Find(devs, ',');
        if len == 0 {
          break;
        }
        var device, done := ScanDevices(k'.done, devs[..len]);
        k' := k'.(device := device, done := done,
                  devices := if len < |devs| then Some(devs[len + 1..]) else None);
        if k'.device.Some? {
          return;
        }
      }
    }

    /** authmethod_byname: a linear search over names and synonyms. */
    method FindMethod(name: string) returns (m: Option<AuthMethod>)
      ensures m == ByName(cfg.table, name)
    {
      for i := 0 to |cfg.table|
        invariant ByName(cfg.table, name) == ByName(cfg.table[i..], name)
      {
        assert cfg.table[i..][1..] == cfg.table[i + 1..];
        if cfg.table[i].name == name || cfg.table[i].synonym == Some(name) {
          return Some(cfg.table[i]);
        }
      }
      m := None;
    }

    /** The failure branch at the end of userauth_finish. */
    method CountFailure(partial: bool, name: string)
      modifies this`failures, this`stopped
      ensures Tally(attempt, failures) == Refuse(cfg, old(Tally(attempt, failures)), name, partial, serverCaused)
      ensures stopped == (old(stopped) || failures >= cfg.maxTries)
    {
      if !partial && !serverCaused && (attempt > 1 || name != cfg.names.none) {
        failures := failures + 1;
      }
      if failures >= cfg.maxTries {
        stopped := true;
      }
    }

    /** The tail of userauth_finish: reply, success, or a counted failure. */
    method SendOutcome(ok: bool, partial: bool, name: string, env: Env)
      modifies this`failures, this`stopped, this`requests, this`success
      ensures View() == Conclude(cfg, old(View()), ok, partial, name, env)
    {
      if postponed {
        return;
      }
      ghost var s := View();
      if !ok {
        CountFailure(partial, name);
        assert View() == Counted(cfg, s, Refuse(cfg, s.tally, name, partial, serverCaused));
      } else if env.pamDenied {
        stopped := true;
      } else {
        requests := false;
        success := true;
      }
    }

    /** userauth_finish where AuthenticationMethods is configured. */
    method FinishListed(name: string, sub: Option<string>, ghost key: Option<Key>, env: Env)
      modifies this`authMethods, this`notInLists, this`failures, this`stopped, this`requests, this`success
      ensures View() == AcceptListed(cfg, old(View()), Success(name, sub, key), env)
    {
      var complete, found := UpdateMethodsLists(name, sub);
      if found {
        SendOutcome(complete, !complete, name, env);
      } else {
        UpdateListsMeaning(old(authMethods), name, sub);
        assert authMethods == old(authMethods);
        DieUnlisted();
      }
    }

    /** The fatal "method not in AuthenticationMethods". */
    method DieUnlisted()
      modifies this`stopped, this`notInLists
      ensures View() == Stop(old(View())).(notInLists := true)
    {
      stopped, notInLists := true, true;
    }

    /** userauth_finish for a method that succeeded. */
    method FinishAccepted(name: string, sub: Option<string>, ghost key: Option<Key>, env: Env)
      modifies this`accepted, this`authMethods, this`notInLists,
               this`failures, this`stopped, this`requests, this`success
      ensures View() == Accept(cfg, old(View()), Success(name, sub, key), env)
    {
      accepted := accepted + [Success(name, sub, key)];
      if |Required(cfg)| == 0 {
        SendOutcome(true, false, name, env);
      } else {
        FinishListed(name, sub, key, env);
      }
    }

    /** userauth_finish. */
    method UserauthFinish(ok: bool, packetName: string, sub: Option<string>, ghost key: Option<Key>, env: Env)
      modifies this`accepted, this`authMethods, this`notInLists,
               this`failures, this`stopped, this`requests, this`success
      ensures View() == Finish(cfg, old(View()), ok, packetName, sub, key, env)
    {
      if !ok {
        SendOutcome(false, false, packetName, env);
        return;
      }
      if !valid || postponed {
        stopped := true;
        return;
      }
      var m := FindMethod(packetName);
      if m.None? {
        stopped := true;
        return;
      }
      if env.rootDenied {
        SendOutcome(false, false, m.value.name, env);
      } else {
        FinishAccepted(m.value.name, sub, key, env);
      }
    }

    /** auth2_challenge_stop. */
    method StopChallenge()
      modifies this`responses, this`kbd
      ensures View() == ChallengeStop(old(View()))
    {
      responses := false;
      kbd := None;
    }

    /** auth2_challenge_start. */
    method StartChallenge(dev: Device)
      requires kbd.Some?
      modifies this`responses, this`kbd, this`postponed
      ensures View() == ChallengeStart(cfg, old(View()), dev)
    {
      var k := GetNextDevice(kbd.value);
      if k.device.None? || !dev.initOk || !dev.queryOk {
        StopChallenge();
        return;
      }
      kbd := Some(k.(nreq := dev.nreq));
      responses := true;
      postponed := true;
    }

    /** userauth_pubkey. */
    method UserauthPubkey(t: Try) returns (ok: bool, ghost key: Option<Key>)
      requires t.Pubkey?
      modifies this`prevKeys, this`postponed
      ensures TryPubkey(old(View()), t) == Verdict(View(), ok, key)
    {
      ok, key := false, None;
      if t.parsed.None? {
        return;
      }
      var used := IsKeyUsed(t.parsed.value);
      if used || !t.acceptable || !valid {
        return;
      }
      if t.hasSig {
        ok := t.verified;
        if ok {
          prevKeys := prevKeys + [t.parsed.value];
          key := t.parsed;
        }
        ok := ok && t.activated;
      } else if t.verified {
        postponed := true;
      }
    }

    /** userauth_hostbased. */
    method UserauthHostbased(t: Try) returns (ok: bool)
      requires t.Hostbased?
      modifies this`prevKeys
      ensures TryHostbased(old(View()), t) == Verdict(View(), ok, None)
    {
      ok := t.ok && valid;
      if ok {
        prevKeys := prevKeys + [t.key];
      }
    }

    /** userauth_none and userauth_passwd. */
    method UserauthSimple(t: Try, isNone: bool) returns (ok: bool)
      requires t.Simple?
      modifies this`noneEnabled, this`serverCaused
      ensures TrySimple(old(View()), t, isNone) == Verdict(View(), ok, None)
    {
      if isNone {
        noneEnabled := false;
      }
      serverCaused := t.serverCaused;
      ok := t.ok;
    }

    /** userauth_kbdint and auth2_challenge. */
    method UserauthKbdint(t: Try)
      requires t.Kbdint?
      modifies this`kbd, this`responses, this`postponed
      ensures TryKbdint(cfg, old(View()), t) == Verdict(View(), false, None)
    {
      ghost var s := View();
      kbd := Some(NewKbd(cfg, t.devs));
      assert View() == s.(kbd := Some(NewKbd(cfg, t.devs)));
      StartChallenge(t.dev);
    }

    /** m->userauth for the method found. */
    method CallUserauth(m: AuthMethod, t: Try) returns (ok: bool, ghost key: Option<Key>)
      modifies this`prevKeys, this`noneEnabled, this`serverCaused, this`kbd, this`responses, this`postponed, this`stopped
      ensures RunMethod(cfg, old(View()), m, t) == Verdict(View(), ok, key)
    {
      ok, key := false, None;
      if m.kind.PubkeyMethod? && t.Pubkey? {
        ok, key := UserauthPubkey(t);
      } else if m.kind.KbdintMethod? && t.Kbdint? {
        UserauthKbdint(t);
      } else if m.kind.HostbasedMethod? && t.Hostbased? {
        ok := UserauthHostbased(t);
      } else if (m.kind.NoneMethod? || m.kind.PasswordMethod?) && t.Simple? {
        ok := UserauthSimple(t, m.kind.NoneMethod?);
      } else {
        stopped := true;
      }
    }

    /** authmethod_lookup and the call through it. */
    method LookupAndTry(name: string, t: Try) returns (ok: bool, ghost key: Option<Key>)
      modifies this`prevKeys, this`noneEnabled, this`serverCaused, this`kbd, this`responses, this`postponed, this`stopped
      ensures TryMethod(cfg, old(View()), name, t) == Verdict(View(), ok, key)
    {
      ok, key := false, None;
      var m := FindMethod(name);
      if m.None? || !m.value.enabled || (m.value.kind.NoneMethod? && !noneEnabled) {
        return;
      }
      var allowed := IsMethodAllowed(m.value.name, None);
      if allowed && failures < cfg.maxTries {
        ok, key := CallUserauth(m.value, t);
      }
    }

    /** Set up the lists on the first request; without one left the connection ends. */
    method SetupOrStop()
      modifies this`authMethods, this`origin, this`stopped
      ensures View() == WithLists(cfg, old(View()))
    {
      var ok := SetupMethodsLists();
      if !ok {
        stopped := true;
      }
    }

    method IdentifyUser(rawUser: string, svc: string, pwOk: bool)
      requires attempt == 0
      modifies this`attempt, this`user, this`service, this`valid
      ensures View() == Identify(cfg, old(View()), rawUser, svc, pwOk)
    {
      attempt := attempt + 1;
      user := rawUser[..Find(rawUser, ':')];
      service := svc;
      valid := pwOk && svc == cfg.names.connection;
      assert Identity(user, service, valid) == Identity(UserName(rawUser), svc, pwOk && svc == cfg.names.connection);
    }

    /** Set up the context on the first request. */
    method SetupContext(rawUser: string, svc: string, pwOk: bool)
      requires attempt == 0
      modifies this`attempt, this`user, this`service, this`valid, this`authMethods, this`origin, this`stopped
      ensures View() == BeginFirst(cfg, old(View()), rawUser, svc, pwOk)
    {
      IdentifyUser(rawUser, svc, pwOk);
      SetupOrStop();
    }

    /** The bookkeeping at the start of input_userauth_request. */
    method BeginRequest(rawUser: string, svc: string, pwOk: bool)
      modifies this`attempt, this`user, this`service, this`valid, this`authMethods, this`origin, this`stopped
      ensures View() == Begin(cfg, old(View()), rawUser, svc, pwOk)
    {
      if attempt >= MAX_ATTEMPTS {
        stopped := true;
      } else if attempt == 0 {
        SetupContext(rawUser, svc, pwOk);
      } else {
        attempt := attempt + 1;
        if rawUser[..Find(rawUser, ':')] != user || svc != service {
          stopped := true;
        }
      }
    }

    /** input_userauth_request from the reset of the method state on. */
    method TryAndFinish(name: string, t: Try, env: Env)
      modifies this
      ensures View() == Attempted(cfg, old(View()), name, t, env)
    {
      StopChallenge();
      postponed := false;
      serverCaused := false;
      var ok, key := LookupAndTry(name, t);
      ghost var v := TryMethod(cfg, ResetForRequest(old(View())), name, t);
      assert v == Verdict(View(), ok, key);
      if !stopped {
        UserauthFinish(ok, name, None, key, env);
      }
    }

    /** input_userauth_request. */
    method InputUserauthRequest(m: Msg)
      requires m.Request?
      modifies this
      ensures View() == InputRequest(cfg, old(View()), m)
    {
      if !requests {
        return;
      }
      BeginRequest(m.user, m.service, m.pwOk);
      if !stopped {
        TryAndFinish(m.name, m.attempt, m.env);
      }
    }

    /** input_userauth_info_response. */
    method InputInfoResponse(m: Msg)
      requires m.Response?
      modifies this
      ensures View() == InputResponse(cfg, old(View()), m)
    {
      if !responses {
        if attempt != 0 {
          stopped := true;
        }
        return;
      }
      if kbd.None? || kbd.value.device.None? || kbd.value.device.value >= |cfg.devices| {
        stopped := true;
        return;
      }
      var k := kbd.value;
      if m.nresp != k.nreq || m.nresp > MAX_REPLIES {
        postponed := false;
        stopped := true;
        return;
      }
      var authenticated := Respond(m);
      UserauthFinish(authenticated, cfg.names.kbdint, Some(cfg.devices[k.device.value]), None, m.env);
    }

    /** The device's verdict on the answers: another round, the end of the exchange, or the next device. */
    method Respond(m: Msg) returns (authenticated: bool)
      requires m.Response? && kbd.Some?
      modifies this
      ensures View() == AfterReply(cfg, old(View()), m) && authenticated == (m.reply.Correct? && old(valid))
    {
      postponed := false;
      authenticated := m.reply.Correct? && valid;
      if m.reply.MoreNeeded? && m.reply.queryOk {
        kbd := Some(kbd.value.(nreq := m.reply.nreq));
        postponed := true;
      }
      if !postponed {
        if authenticated {
          StopChallenge();
        } else {
          StartChallenge(m.dev);
        }
      }
    }
  }
}
