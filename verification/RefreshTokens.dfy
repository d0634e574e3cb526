/**
 Refresh-token rotation (`api/auth.py`): deterministic successors, a bounded grace for replays, an
 absolute expiry per session and revocation of the whole session family.

 The HMAC that derives a successor is modelled as a free constructor: a token is its session's root plus
 a number of derivations, so successors are injective and never return to an earlier token; the digest
 used as a key is the token itself. Root token and session id are drawn at login and never repeat; the
 model numbers the logins. Each request is one atomic step at one time of one non-decreasing clock.
 */
module RefreshTokens {
  import opened Decimals

  datatype Token = Token(session: nat, generation: nat)

  function Successor(t: Token): Token {
    Token(t.session, t.generation + 1)
  }

  /** A stored credential; it exists until the clock reaches `expireAt`. */
  datatype Record = Record(session: nat, absoluteExp: int, rotatedTo: Option<Token>, graceExp: int, expireAt: int)

  datatype Config = Config(refreshTtl: nat, grace: nat)

  datatype Failure = Expired | Revoked | UserInvalid | BadRotation | GraceOver

  datatype Response = Refreshed(successor: Token, ttl: int) | Rejected(why: Failure)

  /**
   `logins` (the absolute expiry of each session), `heads` (the latest token answered in each), `undelivered`
   (stored, but never answered) and `disturbed` (see `Breaks`) are history.
   */
  datatype State = State(
    store: map<Token, Record>,
    deny: map<nat, int>,
    clock: int,
    logins: seq<int>,
    heads: seq<nat>,
    undelivered: set<Token>,
    disturbed: set<nat>)
  {
    predicate Live(t: Token, now: int) {
      t in store && now < store[t].expireAt
    }

    predicate Denied(session: nat, now: int) {
      session in deny && now < deny[session]
    }

    function Delete(t: Token): State {
      this.(store := store - {t})
    }

    function Put(t: Token, r: Record): State {
      this.(store := store[t := r])
    }

    function Deliver(t: Token): State {
      this.(undelivered := undelivered - {t})
    }
  }

  /** A crash is a refresh that stores the successor and dies before writing the handle and answering. */
  datatype Request =
    | Login(now: int)
    | Refresh(token: Token, userValid: bool, now: int)
    | Crash(token: Token, now: int)
    | Logout(sid: Option<nat>, carriesExp: bool, cookie: Option<Token>, now: int)

  // ----- the code -----

  function Fresh(session: nat, absoluteExp: int): Record {
    Record(session, absoluteExp, None, 0, absoluteExp)
  }

  function LoginStep(s: State, cfg: Config, now: int): State {
    var n, exp := |s.logins|, now + cfg.refreshTtl;
    if exp - now <= 0 then s.(clock := now)
    else
      s.Put(Token(n, 0), Fresh(n, exp)).(clock := now, logins := s.logins + [exp], heads := s.heads + [0])
  }

  /**
   Tokens whose record their session cannot spare: its head, and a handle whose predecessor could still be
   replayed.
   */
  predicate Needed(s: State, t: Token, now: int) {
    && s.Live(t, now) && t.session < |s.heads|
    && var h := s.heads[t.session];
       t.generation == h || (0 < t.generation < h && s.Live(Token(t.session, t.generation - 1), now))
  }

  /** The session that loses a record it needs when `t` is deleted, if any. */
  function Broken(s: State, t: Token, now: int): set<nat> {
    if Needed(s, t, now) then {t.session} else {}
  }

  function RefreshStep(s0: State, cfg: Config, t: Token, userValid: bool, now: int): (State, Response) {
    var s := s0.(clock := now);
    if !s.Live(t, now) then (s, Rejected(Expired))
    else
      var r := s.store[t];
      if r.absoluteExp <= now then (s.Delete(t), Rejected(Expired))
      else if s.Denied(r.session, now) then (s.Delete(t), Rejected(Revoked))
      else if !userValid then (s.Delete(t).(disturbed := s.disturbed + Broken(s, t, now)), Rejected(UserInvalid))
      else Rotate(s, cfg, t, r, now)
  }

  function Rotate(s: State, cfg: Config, t: Token, r: Record, now: int): (State, Response)
    requires r.absoluteExp > now
  {
    var ttl := r.absoluteExp - now;
    var next := Successor(t);
    if r.rotatedTo.Some? then
      if r.rotatedTo.value != next then (s.Delete(t), Rejected(BadRotation))
      else if r.graceExp <= now then (s.Delete(t), Rejected(GraceOver))
      else if s.Live(next, now) then (s.Deliver(next), Refreshed(next, ttl))
      else (s.Put(next, Fresh(r.session, r.absoluteExp)).Deliver(next), Refreshed(next, ttl))
    else
      var graceSeconds := if cfg.grace < ttl then cfg.grace else ttl;
      var handle := Record(r.session, r.absoluteExp, Some(next), now + graceSeconds, now + graceSeconds);
      (s.Put(next, Fresh(r.session, r.absoluteExp)).Put(t, handle).Deliver(next)
        .(heads := if t.session < |s.heads| then s.heads[t.session := next.generation] else s.heads,
          disturbed := s.disturbed + (if t in s.undelivered then {t.session} else {})),
       Refreshed(next, ttl))
  }

  function CrashStep(s0: State, t: Token, now: int): State {
    var s := s0.(clock := now);
    if !s.Live(t, now) || s.store[t].absoluteExp <= now || s.Denied(s.store[t].session, now) || s.store[t].rotatedTo.Some? then s
    else
      s.Put(Successor(t), Fresh(s.store[t].session, s.store[t].absoluteExp))
       .(undelivered := s.undelivered + {Successor(t)})
  }

  function LogoutStep(s0: State, cfg: Config, sid: Option<nat>, carriesExp: bool, cookie: Option<Token>, now: int): State {
    var s := s0.(clock := now);
    var s1 :=
      if sid.Some? && sid.value < |s.logins| then
        var exp := s.logins[sid.value];
        var familyTtl := if carriesExp && exp != 0 then (if exp - now > 1 then exp - now else 1) else cfg.refreshTtl;
        s.(deny := s.deny[sid.value := now + familyTtl])
      else s;
    if cookie.Some? then
      s1.Delete(cookie.value)
        .(disturbed := s1.disturbed + (if sid == Some(cookie.value.session) then {} else Broken(s1, cookie.value, now)))
    else s1
  }

  function Apply(s: State, cfg: Config, q: Request): State {
    match q
    case Login(now) => LoginStep(s, cfg, now)
    case Refresh(t, userValid, now) => RefreshStep(s, cfg, t, userValid, now).0
    case Crash(t, now) => CrashStep(s, t, now)
    case Logout(sid, carriesExp, cookie, now) => LogoutStep(s, cfg, sid, carriesExp, cookie, now)
  }

  function Run(s: State, cfg: Config, qs: seq<Request>): State
    decreases |qs|
  {
    if qs == [] then s else Run(Apply(s, cfg, qs[0]), cfg, qs[1..])
  }

  /** One clock: request times are non-decreasing. */
  predicate InOrder(clock: int, qs: seq<Request>)
    decreases |qs|
  {
    qs == [] || (clock <= qs[0].now && InOrder(qs[0].now, qs[1..]))
  }

  function Initial(clock: int): State {
    State(map[], map[], clock, [], [], {}, {})
  }

  // ----- the invariant -----

  /** A session still in force: unexpired, unrevoked, and undisturbed by the requests of `Breaks`. */
  predicate Open(s: State, n: nat) {
    n < |s.logins| && s.clock < s.logins[n] && !s.Denied(n, s.clock) && n !in s.disturbed
  }

  predicate RecordOk(logins: seq<int>, t: Token, r: Record) {
    && t.session < |logins| && r.session == t.session
    && r.absoluteExp == logins[t.session] && r.expireAt <= logins[t.session]
    && (r.rotatedTo.Some? ==> r.rotatedTo == Some(Successor(t)) && r.graceExp == r.expireAt)
  }

  predicate RecordsOk(s: State, cfg: Config) {
    && |s.heads| == |s.logins|
    && (forall t :: t in s.store ==> RecordOk(s.logins, t, s.store[t]))
    && (forall n :: 0 <= n < |s.logins| ==> s.logins[n] <= s.clock + cfg.refreshTtl)
    && (forall t :: t in s.undelivered ==> t.session < |s.logins|)
    && (forall n :: n in s.disturbed ==> n < |s.logins|)
    && (forall n :: n in s.deny ==> n < |s.logins| && s.deny[n] >= s.logins[n])
  }

  /**
   The chain of an open session: one un-rotated head; ahead of it only tokens never answered; behind it, among
   the live ones, only handles, each outlived by its successor.
   */
  ghost predicate Chain(s: State, cfg: Config, n: nat)
    requires n < |s.logins| && n < |s.heads|
  {
    var h := s.heads[n];
    && Token(n, h) in s.store && s.store[Token(n, h)] == Fresh(n, s.logins[n])
    && (forall g: nat :: g > h && Token(n, g) in s.store ==>
          Token(n, g) in s.undelivered && s.store[Token(n, g)] == Fresh(n, s.logins[n]))
    && (forall g: nat :: g <= h ==> Token(n, g) !in s.undelivered)
    && (forall g: nat :: g < h && s.Live(Token(n, g), s.clock) ==> Handle(s, cfg, n, g))
  }

  predicate Handle(s: State, cfg: Config, n: nat, g: nat) {
    && Token(n, g) in s.store && Token(n, g + 1) in s.store
    && var r := s.store[Token(n, g)];
       && r.rotatedTo == Some(Token(n, g + 1)) && r.graceExp == r.expireAt
       && r.expireAt <= s.clock + cfg.grace
       && r.expireAt <= s.store[Token(n, g + 1)].expireAt
  }

  ghost predicate Inv(s: State, cfg: Config) {
    && RecordsOk(s, cfg)
    && forall n: nat :: Open(s, n) ==> Chain(s, cfg, n)
  }

  // ----- what requests do to one session -----

  /** Nothing of session `n` differs between two states except the time. */
  ghost predicate SameSession(s: State, s': State, n: nat) {
    && n < |s.logins| <= |s'.logins| && n < |s.heads| <= |s'.heads|
    && s'.logins[n] == s.logins[n] && s'.heads[n] == s.heads[n] && s.clock <= s'.clock
    && (forall g: nat :: Token(n, g) in s'.store <==> Token(n, g) in s.store)
    && (forall g: nat :: Token(n, g) in s.store ==> s'.store[Token(n, g)] == s.store[Token(n, g)])
    && (forall g: nat :: Token(n, g) in s'.undelivered <==> Token(n, g) in s.undelivered)
  }

  lemma SameChain(s: State, s': State, cfg: Config, n: nat)
    requires SameSession(s, s', n) && Chain(s, cfg, n)
    ensures Chain(s', cfg, n)
  {
    forall g: nat | g < s'.heads[n] && s'.Live(Token(n, g), s'.clock)
      ensures Handle(s', cfg, n, g)
    {
      assert s.Live(Token(n, g), s.clock);
      assert Handle(s, cfg, n, g);
    }
  }

  /** `s'` is `s` later, without the record of `t`. */
  ghost predicate Without(s: State, s': State, t: Token) {
    && s'.store == s.store - {t} && s.clock <= s'.clock
    && s'.logins == s.logins && s'.heads == s.heads && s'.undelivered == s.undelivered
  }

  lemma SparedChain(s: State, s': State, cfg: Config, t: Token)
    requires Without(s, s', t) && t.session < |s.logins| && t.session < |s.heads|
    requires Chain(s, cfg, t.session) && s'.clock < s.logins[t.session] && !Needed(s, t, s'.clock)
    ensures Chain(s', cfg, t.session)
  {
    var n := t.session;
    assert t == Token(n, t.generation);
    forall g: nat | g < s'.heads[n] && s'.Live(Token(n, g), s'.clock)
      ensures Handle(s', cfg, n, g)
    {
      assert s.Live(Token(n, g), s.clock);
      assert Handle(s, cfg, n, g);
    }
  }

  /** Exactly one live answered token of the session is un-rotated, and every other one names its live successor. */
  ghost predicate SingleHead(s: State, n: nat) {
    exists h: nat :: HeadedBy(s, n, h)
  }

  ghost predicate HeadedBy(s: State, n: nat, h: nat) {
    forall g: nat :: Link(s, n, g, h)
  }

  predicate Answered(s: State, t: Token) {
    s.Live(t, s.clock) && t !in s.undelivered
  }

  predicate Link(s: State, n: nat, g: nat, h: nat) {
    var t := Token(n, g);
    && (Answered(s, t) && s.store[t].rotatedTo.None? <==> g == h)
    && (Answered(s, t) && g != h ==> s.store[t].rotatedTo == Some(Successor(t)) && s.Live(Successor(t), s.clock))
  }

  lemma ChainHasHead(s: State, cfg: Config, n: nat)
    requires n < |s.logins| && n < |s.heads| && s.clock < s.logins[n] && Chain(s, cfg, n)
    ensures HeadedBy(s, n, s.heads[n])
    ensures SingleHead(s, n)
  {
    forall g: nat
      ensures Link(s, n, g, s.heads[n])
    {
      if g < s.heads[n] && s.Live(Token(n, g), s.clock) { assert Handle(s, cfg, n, g); }
    }
  }

  /** Deleting a needed record leaves the session without its head, or a replayable handle without its successor. */
  lemma NeededBreaks(s: State, s': State, cfg: Config, t: Token)
    requires Without(s, s', t) && t.session < |s.logins| && t.session < |s.heads|
    requires Chain(s, cfg, t.session) && s'.clock < s.logins[t.session] && Needed(s, t, s'.clock)
    ensures !SingleHead(s', t.session)
  {
    var n, h := t.session, s.heads[t.session];
    assert t == Token(n, t.generation);
    forall h': nat
      ensures !HeadedBy(s', n, h')
    {
      if t.generation == h {
        if h' < h && s.Live(Token(n, h'), s.clock) { assert Handle(s, cfg, n, h'); }
        assert !Link(s', n, h', h');
      } else {
        var g: nat := t.generation - 1;
        assert Handle(s, cfg, n, g);
        assert !Link(s', n, g, h');
      }
    }
  }

  // ----- every request keeps the invariant -----

  lemma LoginInv(s: State, cfg: Config, now: int)
    requires Inv(s, cfg) && s.clock <= now
    ensures Inv(LoginStep(s, cfg, now), cfg)
  {
    var s' := LoginStep(s, cfg, now);
    LoginRecordsOk(s, cfg, now);
    forall n: nat | Open(s', n)
      ensures Chain(s', cfg, n)
    {
      if n < |s.logins| {
        assert Open(s, n);
        SameChain(s, s', cfg, n);
      }
    }
  }

  lemma LoginRecordsOk(s: State, cfg: Config, now: int)
    requires RecordsOk(s, cfg) && s.clock <= now
    ensures RecordsOk(LoginStep(s, cfg, now), cfg)
  {
  }

  lemma LogoutInv(s: State, cfg: Config, sid: Option<nat>, carriesExp: bool, cookie: Option<Token>, now: int)
    requires Inv(s, cfg) && s.clock <= now
    ensures Inv(LogoutStep(s, cfg, sid, carriesExp, cookie, now), cfg)
  {
    var s' := LogoutStep(s, cfg, sid, carriesExp, cookie, now);
    LogoutRecordsOk(s, cfg, sid, carriesExp, cookie, now);
    forall n: nat | Open(s', n)
      ensures Chain(s', cfg, n)
    {
      LogoutOpen(s, cfg, sid, carriesExp, cookie, now, n);
      if cookie.Some? && cookie.value.session == n {
        SparedChain(s, s', cfg, cookie.value);
      } else {
        SameChain(s, s', cfg, n);
      }
    }
  }

  lemma LogoutRecordsOk(s: State, cfg: Config, sid: Option<nat>, carriesExp: bool, cookie: Option<Token>, now: int)
    requires RecordsOk(s, cfg) && s.clock <= now
    ensures RecordsOk(LogoutStep(s, cfg, sid, carriesExp, cookie, now), cfg)
  {
  }

  /** A session open after a logout was open before it, and lost no record it needs. */
  lemma LogoutOpen(s: State, cfg: Config, sid: Option<nat>, carriesExp: bool, cookie: Option<Token>, now: int, n: nat)
    requires RecordsOk(s, cfg) && s.clock <= now && Open(LogoutStep(s, cfg, sid, carriesExp, cookie, now), n)
    ensures Open(s, n) && sid != Some(n)
    ensures cookie.Some? && cookie.value.session == n ==> !Needed(s, cookie.value, now)
  {
    if sid == Some(n) { LogoutDenies(s, cfg, n, carriesExp, cookie, now); }
  }

  /** Logging out denies the family at least until its absolute expiry takes over. */
  lemma LogoutDenies(s: State, cfg: Config, n: nat, carriesExp: bool, cookie: Option<Token>, now: int)
    requires RecordsOk(s, cfg) && s.clock <= now && n < |s.logins|
    ensures var s' := LogoutStep(s, cfg, Some(n), carriesExp, cookie, now);
            && s'.logins == s.logins && n in s'.deny && s'.deny[n] >= s.logins[n]
            && (carriesExp && s.logins[n] > now ==> s'.deny[n] == s.logins[n] || s.logins[n] == 0)
            && (!carriesExp ==> s'.deny[n] == now + cfg.refreshTtl)
            && forall m :: m != n ==> (m in s'.deny <==> m in s.deny) && (m in s.deny ==> s'.deny[m] == s.deny[m])
  {
  }

  lemma RefreshRecordsOk(s: State, cfg: Config, t: Token, userValid: bool, now: int)
    requires RecordsOk(s, cfg) && s.clock <= now
    ensures RecordsOk(RefreshStep(s, cfg, t, userValid, now).0, cfg)
  {
    if s.Live(t, now) && userValid && s.store[t].absoluteExp > now && !s.Denied(t.session, now) {
      RotateRecordsOk(s.(clock := now), cfg, t, s.store[t], now);
    }
    hide Rotate;
  }

  lemma RotateRecordsOk(s: State, cfg: Config, t: Token, r: Record, now: int)
    requires RecordsOk(s, cfg) && s.clock == now && t in s.store && r == s.store[t] && r.absoluteExp > now
    ensures RecordsOk(Rotate(s, cfg, t, r, now).0, cfg)
  {
    var next, stored := Successor(t), Fresh(r.session, r.absoluteExp);
    PutOk(s, cfg, next, stored);
    if r.rotatedTo.None? {
      var ttl := r.absoluteExp - now;
      var graceSeconds := if cfg.grace < ttl then cfg.grace else ttl;
      PutOk(s.Put(next, stored), cfg, t, Record(r.session, r.absoluteExp, Some(next), now + graceSeconds, now + graceSeconds));
    }
  }

  lemma PutOk(s: State, cfg: Config, t: Token, r: Record)
    requires RecordsOk(s, cfg) && RecordOk(s.logins, t, r)
    ensures RecordsOk(s.Put(t, r), cfg)
  {
  }

  /** A refresh touches only its own session. */
  lemma RefreshIsLocal(s: State, cfg: Config, t: Token, userValid: bool, now: int, n: nat)
    requires RecordsOk(s, cfg) && s.clock <= now && n != t.session && n < |s.logins|
    ensures SameSession(s, RefreshStep(s, cfg, t, userValid, now).0, n)
  {
  }

  lemma RefreshInv(s: State, cfg: Config, t: Token, userValid: bool, now: int)
    requires Inv(s, cfg) && s.clock <= now && cfg.grace >= 1
    ensures Inv(RefreshStep(s, cfg, t, userValid, now).0, cfg)
  {
    var s' := RefreshStep(s, cfg, t, userValid, now).0;
    RefreshRecordsOk(s, cfg, t, userValid, now);
    forall n: nat | Open(s', n)
      ensures Chain(s', cfg, n)
    {
      OpenBefore(s, cfg, t, userValid, now, n);
      if n != t.session {
        RefreshIsLocal(s, cfg, t, userValid, now, n);
        SameChain(s, s', cfg, n);
      } else if !s.Live(t, now) {
        SameChain(s, s', cfg, n);
      } else if userValid {
        OpenRefresh(s, cfg, t, now);
      } else {
        InvalidRefresh(s, cfg, t, now);
        SparedChain(s, s', cfg, t);
      }
    }
  }

  /** A session open after a refresh was open before it, and the refresh did not break it. */
  lemma OpenBefore(s: State, cfg: Config, t: Token, userValid: bool, now: int, n: nat)
    requires Inv(s, cfg) && s.clock <= now && Open(RefreshStep(s, cfg, t, userValid, now).0, n)
    ensures Open(s, n) && Open(s.(clock := now), n)
    ensures n == t.session && s.Live(t, now) ==> if userValid then t !in s.undelivered else !Needed(s, t, now)
  {
    if n == t.session && s.Live(t, now) && userValid {
      assert Chain(s, cfg, n);
      assert t == Token(n, t.generation);
    }
  }

  lemma InvalidRefresh(s: State, cfg: Config, t: Token, now: int)
    requires RecordsOk(s, cfg) && s.clock <= now && s.Live(t, now)
    requires now < s.logins[t.session] && !s.Denied(t.session, now)
    ensures Without(s, RefreshStep(s, cfg, t, false, now).0, t)
    ensures RefreshStep(s, cfg, t, false, now).0.disturbed == s.disturbed + Broken(s, t, now)
  {
  }

  /** A live answered token of an open session is its head, which rotates, or a handle, which replays. */
  lemma OpenRefresh(s: State, cfg: Config, t: Token, now: int)
    requires Inv(s, cfg) && s.clock <= now && cfg.grace >= 1
    requires Open(s, t.session) && Open(s.(clock := now), t.session) && s.Live(t, now) && t !in s.undelivered
    ensures var (s', r) := RefreshStep(s, cfg, t, true, now);
            && r == Refreshed(Successor(t), s.logins[t.session] - now)
            && t.generation <= s.heads[t.session]
            && (s.store[t].rotatedTo.Some? <==> t.generation < s.heads[t.session])
            && (t.generation < s.heads[t.session] ==> s' == s.(clock := now))
            && (t.generation == s.heads[t.session] ==> s'.heads[t.session] == t.generation + 1)
            && t.session < |s'.logins| == |s'.heads| && Chain(s', cfg, t.session)
  {
    var n, h := t.session, s.heads[t.session];
    assert Chain(s, cfg, n);
    assert t == Token(n, t.generation);
    if t.generation < h {
      Replayed(s, cfg, t, now);
    } else {
      Rotated(s, cfg, t, now);
    }
  }

  lemma Replayed(s: State, cfg: Config, t: Token, now: int)
    requires RecordsOk(s, cfg) && s.clock <= now && t.session < |s.logins| && Chain(s, cfg, t.session)
    requires now < s.logins[t.session] && !s.Denied(t.session, now) && s.Live(t, now)
    requires t.generation < s.heads[t.session]
    ensures s.store[t].rotatedTo.Some?
    ensures RefreshStep(s, cfg, t, true, now) == (s.(clock := now), Refreshed(Successor(t), s.logins[t.session] - now))
    ensures Chain(s.(clock := now), cfg, t.session)
  {
    assert t == Token(t.session, t.generation);
    assert Handle(s, cfg, t.session, t.generation);
    SameChain(s, s.(clock := now), cfg, t.session);
    assert s.undelivered - {Successor(t)} == s.undelivered;
  }

  lemma Rotated(s: State, cfg: Config, t: Token, now: int)
    requires RecordsOk(s, cfg) && s.clock <= now && t.session < |s.logins| && Chain(s, cfg, t.session) && cfg.grace >= 1
    requires now < s.logins[t.session] && !s.Denied(t.session, now) && s.Live(t, now)
    requires t.generation == s.heads[t.session]
    ensures var (s', r) := RefreshStep(s, cfg, t, true, now);
            && r == Refreshed(Successor(t), s.logins[t.session] - now) && s.store[t].rotatedTo.None?
            && |s'.heads| == |s'.logins| == |s.logins| && s'.heads[t.session] == t.generation + 1
            && Chain(s', cfg, t.session)
  {
    var n, s' := t.session, RefreshStep(s, cfg, t, true, now).0;
    assert t == Token(n, t.generation);
    forall g: nat | g < s'.heads[n] && s'.Live(Token(n, g), s'.clock)
      ensures Handle(s', cfg, n, g)
    {
      if g < t.generation {
        assert s.Live(Token(n, g), s.clock);
        assert Handle(s, cfg, n, g);
      }
    }
  }

  lemma CrashInv(s: State, cfg: Config, t: Token, now: int)
    requires Inv(s, cfg) && s.clock <= now
    ensures Inv(CrashStep(s, t, now), cfg)
  {
    var s' := CrashStep(s, t, now);
    forall n: nat | Open(s', n)
      ensures Chain(s', cfg, n)
    {
      assert Open(s, n);
      CrashKeepsChain(s, cfg, t, now, n);
    }
  }

  /** A crash adds nothing but a token ahead of the head that was never answered. */
  lemma CrashKeepsChain(s: State, cfg: Config, t: Token, now: int, n: nat)
    requires RecordsOk(s, cfg) && s.clock <= now && n < |s.logins| && Chain(s, cfg, n)
    requires now < s.logins[n]
    ensures var s' := CrashStep(s, t, now);
            s'.logins == s.logins && s'.heads == s.heads && s'.disturbed == s.disturbed && Chain(s', cfg, n)
  {
    var s' := CrashStep(s, t, now);
    assert t == Token(t.session, t.generation);
    if t.session == n && s.Live(t, now) && t.generation < s.heads[n] { assert Handle(s, cfg, n, t.generation); }
    forall g: nat | g < s'.heads[n] && s'.Live(Token(n, g), s'.clock)
      ensures Handle(s', cfg, n, g)
    {
      assert s.Live(Token(n, g), s.clock);
      assert Handle(s, cfg, n, g);
    }
  }

  lemma StepInv(s: State, cfg: Config, q: Request)
    requires Inv(s, cfg) && s.clock <= q.now && cfg.grace >= 1
    ensures Inv(Apply(s, cfg, q), cfg) && Apply(s, cfg, q).clock == q.now
    ensures s.logins <= Apply(s, cfg, q).logins
  {
    match q
    case Login(now) => LoginInv(s, cfg, now);
    case Refresh(t, userValid, now) => RefreshInv(s, cfg, t, userValid, now);
    case Crash(t, now) => CrashInv(s, cfg, t, now);
    case Logout(sid, carriesExp, cookie, now) => LogoutInv(s, cfg, sid, carriesExp, cookie, now);
  }

  lemma {:induction false} RunInv(s: State, cfg: Config, qs: seq<Request>)
    requires Inv(s, cfg) && InOrder(s.clock, qs) && cfg.grace >= 1
    ensures Inv(Run(s, cfg, qs), cfg) && s.logins <= Run(s, cfg, qs).logins
    decreases |qs|
  {
    if qs == [] {
    } else {
      StepInv(s, cfg, qs[0]);
      RunInv(Apply(s, cfg, qs[0]), cfg, qs[1..]);
    }
  }

  // ----- results -----

  /**
   In every run, crashes included, each open session has exactly one live un-rotated token among those that were
   ever answered; those behind it name their live successors, and those ahead of it were never answered.
   */
  lemma OneUnrotated(cfg: Config, clock: int, qs: seq<Request>, t: Token)
    requires InOrder(clock, qs) && cfg.grace >= 1
    ensures var s := Run(Initial(clock), cfg, qs);
            Open(s, t.session) ==>
              && |s.heads| == |s.logins| && SingleHead(s, t.session)
              && (s.Live(t, s.clock) && s.store[t].rotatedTo.None? && t !in s.undelivered
                  <==> t.generation == s.heads[t.session])
              && (s.Live(t, s.clock) && t.generation < s.heads[t.session] ==>
                    s.store[t].rotatedTo == Some(Successor(t)) && s.Live(Successor(t), s.clock))
              && (s.Live(t, s.clock) && t.generation > s.heads[t.session] ==> t in s.undelivered)
    ensures (forall i :: 0 <= i < |qs| ==> !qs[i].Crash?) ==> Run(Initial(clock), cfg, qs).undelivered == {}
  {
    var s := Run(Initial(clock), cfg, qs);
    RunInv(Initial(clock), cfg, qs);
    if Open(s, t.session) {
      assert Chain(s, cfg, t.session);
      assert t == Token(t.session, t.generation);
      ChainHasHead(s, cfg, t.session);
      assert Link(s, t.session, t.generation, s.heads[t.session]);
    }
    if forall i :: 0 <= i < |qs| ==> !qs[i].Crash? { AllAnswered(Initial(clock), cfg, qs); }
  }

  /** Without crashes every stored token was answered. */
  lemma {:induction false} AllAnswered(s: State, cfg: Config, qs: seq<Request>)
    requires s.undelivered == {} && forall i :: 0 <= i < |qs| ==> !qs[i].Crash?
    ensures Run(s, cfg, qs).undelivered == {}
    decreases |qs|
  {
    if qs == [] {
    } else {
      AllAnswered(Apply(s, cfg, qs[0]), cfg, qs[1..]);
    }
  }

  /**
   The requests that break the chain of an open session `n`: a logout with somebody else's claims, or a refresh by
   a user no longer valid, that deletes a record the session needs; and a refresh with a token never answered.
   */
  predicate Breaks(s: State, q: Request, n: nat) {
    match q
    case Login(_) => false
    case Refresh(t, userValid, now) =>
      t.session == n && s.Live(t, now) && if userValid then t in s.undelivered else Needed(s, t, now)
    case Crash(_, _) => false
    case Logout(sid, _, cookie, now) =>
      sid != Some(n) && cookie.Some? && cookie.value.session == n && Needed(s, cookie.value, now)
  }

  /** Still unexpired and unrevoked after a request. */
  predicate InForce(s: State, n: nat) {
    n < |s.logins| && s.clock < s.logins[n] && !s.Denied(n, s.clock)
  }

  /**
   Exactly when one request costs an open session its single head: the requests of `Breaks`, no others. They are
   also exactly those after which the session counts as disturbed.
   */
  lemma BreaksIff(s: State, cfg: Config, q: Request, n: nat)
    requires Inv(s, cfg) && s.clock <= q.now && cfg.grace >= 1
    requires Open(s, n) && InForce(Apply(s, cfg, q), n)
    ensures SingleHead(Apply(s, cfg, q), n) <==> !Breaks(s, q, n)
    ensures n in Apply(s, cfg, q).disturbed <==> Breaks(s, q, n)
  {
    var s' := Apply(s, cfg, q);
    assert Chain(s, cfg, n);
    StepInv(s, cfg, q);
    BreaksDisturbs(s, cfg, q, n);
    if Breaks(s, q, n) {
      BreaksHead(s, cfg, q, n);
    } else {
      assert Open(s', n);
      ChainHasHead(s', cfg, n);
    }
  }

  lemma BreaksDisturbs(s: State, cfg: Config, q: Request, n: nat)
    requires Inv(s, cfg) && s.clock <= q.now && Open(s, n) && InForce(Apply(s, cfg, q), n)
    ensures n in Apply(s, cfg, q).disturbed <==> Breaks(s, q, n)
  {
    if q.Refresh? && q.token.session == n && s.Live(q.token, q.now) {
      assert Chain(s, cfg, n);
      assert q.token == Token(n, q.token.generation);
      if q.userValid && q.token in s.undelivered { assert q.token.generation > s.heads[n]; }
    }
  }

  lemma BreaksHead(s: State, cfg: Config, q: Request, n: nat)
    requires Inv(s, cfg) && s.clock <= q.now && cfg.grace >= 1
    requires Open(s, n) && InForce(Apply(s, cfg, q), n) && Breaks(s, q, n)
    ensures !SingleHead(Apply(s, cfg, q), n)
  {
    assert Chain(s, cfg, n);
    match q
    case Refresh(t, userValid, now) =>
      if userValid {
        UnansweredBreaks(s, cfg, t, now);
      } else {
        InvalidRefresh(s, cfg, t, now);
        NeededBreaks(s, Apply(s, cfg, q), cfg, t);
      }
    case Logout(_, _, cookie, _) => NeededBreaks(s, Apply(s, cfg, q), cfg, cookie.value);
  }

  /** Answering a token that was itself never answered leaves two un-rotated tokens. */
  lemma UnansweredBreaks(s: State, cfg: Config, t: Token, now: int)
    requires Inv(s, cfg) && s.clock <= now && cfg.grace >= 1 && Open(s, t.session)
    requires now < s.logins[t.session] && !s.Denied(t.session, now) && s.Live(t, now) && t in s.undelivered
    ensures !SingleHead(RefreshStep(s, cfg, t, true, now).0, t.session)
  {
    var n, h, s' := t.session, s.heads[t.session], RefreshStep(s, cfg, t, true, now).0;
    assert Chain(s, cfg, n);
    assert t == Token(n, t.generation) && t.generation > h;
    assert Answered(s', Token(n, h)) && s'.store[Token(n, h)].rotatedTo.None?;
    assert Answered(s', Successor(t)) && s'.store[Successor(t)].rotatedTo.None?;
    forall h': nat
      ensures !HeadedBy(s', n, h')
    {
      assert !Link(s', n, h, h') || !Link(s', n, t.generation + 1, h');
    }
  }

  /** What a crash leaves of an open session: its head as it was, and beside it the successor, un-rotated and unanswered. */
  lemma CrashLeavesBoth(s: State, cfg: Config, n: nat, now: int)
    requires Inv(s, cfg) && Open(s, n) && s.clock <= now < s.logins[n]
    ensures n < |s.heads|
    ensures var t := Token(n, s.heads[n]); var s' := CrashStep(s, t, now);
            && s'.Live(t, now) && s'.store[t] == s.store[t] && s.store[t].rotatedTo.None? && t !in s'.undelivered
            && s'.Live(Successor(t), now) && s'.store[Successor(t)] == s.store[t] && Successor(t) in s'.undelivered
  {
    assert Chain(s, cfg, n);
    assert n !in s.deny;
  }

  /**
   A crash between storing the successor and writing the handle costs nothing: whatever the state, a retry gets the
   answer it would have got without the crash, and if that is a success it restores the very state.
   */
  lemma CrashThenRetry(s: State, cfg: Config, t: Token, crashedAt: int, userValid: bool, now: int)
    requires crashedAt <= now
    ensures var (s1, r1) := RefreshStep(s, cfg, t, userValid, now);
            var (s2, r2) := RefreshStep(CrashStep(s, t, crashedAt), cfg, t, userValid, now);
            r1 == r2 && (r1.Refreshed? ==> s1 == s2)
  {
    var c := CrashStep(s, t, crashedAt);
    if c != s.(clock := crashedAt) && RefreshStep(s, cfg, t, userValid, now).1.Refreshed? {
      var next, r := Successor(t), s.store[t];
      var stored := Fresh(r.session, r.absoluteExp);
      assert c.store == s.store[next := stored];
      assert c.store[next := stored] == s.store[next := stored];
      assert c.undelivered - {next} == s.undelivered - {next};
      assert t in c.undelivered <==> t in s.undelivered;
    }
  }

  /** A replay inside grace returns the same successor and changes nothing: neither grace nor any record. */
  lemma ReplayIsIdempotent(cfg: Config, clock: int, qs: seq<Request>, t: Token, now: int)
    requires InOrder(clock, qs) && cfg.grace >= 1
    ensures var s := Run(Initial(clock), cfg, qs);
            s.clock <= now && Open(s, t.session) && Open(s.(clock := now), t.session) && s.Live(t, now)
            && s.store[t].rotatedTo.Some? ==>
              RefreshStep(s, cfg, t, true, now) == (s.(clock := now), Refreshed(Successor(t), s.logins[t.session] - now))
  {
    var s := Run(Initial(clock), cfg, qs);
    RunInv(Initial(clock), cfg, qs);
    if s.clock <= now && Open(s, t.session) && Open(s.(clock := now), t.session) && s.Live(t, now) && s.store[t].rotatedTo.Some? {
      assert Chain(s, cfg, t.session);
      assert t == Token(t.session, t.generation);
      OpenRefresh(s, cfg, t, now);
    }
  }

  /**
   A successful refresh with an already rotated token changes the store exactly when its successor's record is
   gone: it then stores the successor afresh, and the session is one that a request of `Breaks` disturbed.
   */
  lemma RevivalNeedsDisturbance(cfg: Config, clock: int, qs: seq<Request>, t: Token, now: int)
    requires InOrder(clock, qs) && cfg.grace >= 1
    ensures var s := Run(Initial(clock), cfg, qs);
            var (s', r) := RefreshStep(s, cfg, t, true, now);
            s.clock <= now && s.Live(t, now) && s.store[t].rotatedTo.Some? && r.Refreshed? ==>
              && (s'.store != s.store <==> !s.Live(Successor(t), now))
              && (!s.Live(Successor(t), now) ==>
                  && s'.store == s.store[Successor(t) := Fresh(t.session, s.store[t].absoluteExp)]
                  && t.session in s.disturbed)
  {
    var s := Run(Initial(clock), cfg, qs);
    RunInv(Initial(clock), cfg, qs);
    ReplayIsIdempotent(cfg, clock, qs, t, now);
  }

  /**
   What a refresh answers, in every reachable state: expired without a live record, revoked after a logout, refused to
   an invalid user, and otherwise the successor until the absolute expiry. A live record is never found in a bad
   rotation state or past its grace.
   */
  lemma RefreshSucceedsIff(cfg: Config, clock: int, qs: seq<Request>, t: Token, userValid: bool, now: int)
    requires InOrder(clock, qs) && cfg.grace >= 1
    ensures var s := Run(Initial(clock), cfg, qs);
            s.clock <= now ==>
              RefreshStep(s, cfg, t, userValid, now).1 ==
                if !s.Live(t, now) || t.session >= |s.logins| then Rejected(Expired)
                else if s.Denied(t.session, now) then Rejected(Revoked)
                else if !userValid then Rejected(UserInvalid)
                else Refreshed(Successor(t), s.logins[t.session] - now)
  {
    RunInv(Initial(clock), cfg, qs);
  }

  /** A refusal deletes the presented record, and nothing else, if there was one; a logout deletes its cookie's. */
  lemma RefusalDeletes(cfg: Config, clock: int, qs: seq<Request>, t: Token, userValid: bool, now: int)
    requires InOrder(clock, qs) && cfg.grace >= 1
    ensures var s := Run(Initial(clock), cfg, qs);
            var (s', r) := RefreshStep(s, cfg, t, userValid, now);
            s.clock <= now && r.Rejected? ==> s'.store == (if s.Live(t, now) then s.store - {t} else s.store) && s'.deny == s.deny
    ensures var s := Run(Initial(clock), cfg, qs);
            forall sid, carriesExp, cookie: Option<Token> ::
              LogoutStep(s, cfg, sid, carriesExp, cookie, now).store == if cookie.Some? then s.store - {cookie.value} else s.store
  {
    RunInv(Initial(clock), cfg, qs);
  }

  /** Only a logout with its own claims denies a session. */
  lemma {:induction false} DeniedOnlyByLogout(s: State, cfg: Config, qs: seq<Request>, n: nat)
    requires n !in s.deny && forall i :: 0 <= i < |qs| ==> !(qs[i].Logout? && qs[i].sid == Some(n))
    ensures n !in Run(s, cfg, qs).deny
    decreases |qs|
  {
    if qs == [] {
    } else {
      DeniedOnlyByLogout(Apply(s, cfg, qs[0]), cfg, qs[1..], n);
    }
  }

  // ----- lifetimes, from the times of the requests -----

  /** No request of a run breaks session `n` or logs it out. */
  ghost predicate LeftAlone(s: State, cfg: Config, qs: seq<Request>, n: nat)
    decreases |qs|
  {
    qs == [] ||
    (!Breaks(s, qs[0], n) && !(qs[0].Logout? && qs[0].sid == Some(n)) && LeftAlone(Apply(s, cfg, qs[0]), cfg, qs[1..], n))
  }

  lemma OpenStep(s: State, cfg: Config, q: Request, n: nat)
    requires Inv(s, cfg) && s.clock <= q.now && cfg.grace >= 1 && Open(s, n) && q.now < s.logins[n]
    requires !Breaks(s, q, n) && !(q.Logout? && q.sid == Some(n))
    ensures Inv(Apply(s, cfg, q), cfg) && Open(Apply(s, cfg, q), n) && Apply(s, cfg, q).logins[n] == s.logins[n]
    ensures Apply(s, cfg, q).clock == q.now
  {
    StepInv(s, cfg, q);
    assert n !in s.deny;
    DenyUntouched(s, cfg, q, n);
    hide Inv, Apply, Breaks;
    BreaksDisturbs(s, cfg, q, n);
  }

  lemma DenyUntouched(s: State, cfg: Config, q: Request, n: nat)
    requires !(q.Logout? && q.sid == Some(n)) && n !in s.deny
    ensures n !in Apply(s, cfg, q).deny
  {
  }

  /** The clock at the end of a run. */
  function EndOf(clock: int, qs: seq<Request>): int {
    if qs == [] then clock else qs[|qs| - 1].now
  }

  lemma {:induction false} OrderedEnd(clock: int, qs: seq<Request>)
    requires InOrder(clock, qs)
    ensures clock <= EndOf(clock, qs)
    decreases |qs|
  {
    if qs == [] {
    } else {
      OrderedEnd(qs[0].now, qs[1..]);
      assert qs[1..] != [] ==> qs[1..][|qs| - 2] == qs[|qs| - 1];
    }
  }

  lemma {:induction false} StaysOpen(s: State, cfg: Config, qs: seq<Request>, n: nat)
    requires Inv(s, cfg) && cfg.grace >= 1 && Open(s, n) && InOrder(s.clock, qs) && LeftAlone(s, cfg, qs, n)
    requires EndOf(s.clock, qs) < s.logins[n]
    ensures var s' := Run(s, cfg, qs);
            Inv(s', cfg) && Open(s', n) && s'.logins[n] == s.logins[n] && s'.clock == EndOf(s.clock, qs)
    decreases |qs|
  {
    if qs == [] {
    } else {
      var q, rest := qs[0], qs[1..];
      OrderedEnd(q.now, rest);
      assert rest != [] ==> rest[|rest| - 1] == qs[|qs| - 1];
      OpenStep(s, cfg, q, n);
      StaysOpen(Apply(s, cfg, q), cfg, rest, n);
    }
  }

  lemma LoginOpens(s: State, cfg: Config, at: int)
    requires Inv(s, cfg) && s.clock <= at && cfg.refreshTtl > 0
    ensures var n, s1 := |s.logins|, Apply(s, cfg, Login(at));
            Open(s1, n) && s1.logins[n] == at + cfg.refreshTtl && s1.clock == at && n !in s1.deny
  {
  }

  lemma FreshSession(cfg: Config, clock: int, before: seq<Request>, at: int)
    requires InOrder(clock, before) && cfg.grace >= 1 && cfg.refreshTtl > 0 && Run(Initial(clock), cfg, before).clock <= at
    ensures var s0 := Run(Initial(clock), cfg, before);
            var n, s1 := |s0.logins|, Apply(s0, cfg, Login(at));
            Inv(s1, cfg) && Open(s1, n) && s1.logins[n] == at + cfg.refreshTtl && s1.clock == at
  {
    var s0 := Run(Initial(clock), cfg, before);
    RunInv(Initial(clock), cfg, before);
    StepInv(s0, cfg, Login(at));
    LoginOpens(s0, cfg, at);
  }

  /**
   The life of a session, from the time of its login: left alone, its head refreshes at every time before login plus
   TTL; and whatever happens, none of its tokens does at or after that time.
   */
  lemma SessionLifetime(cfg: Config, clock: int, before: seq<Request>, at: int, after: seq<Request>, now: int)
    requires InOrder(clock, before) && cfg.grace >= 1 && cfg.refreshTtl > 0
    requires Run(Initial(clock), cfg, before).clock <= at && InOrder(at, after) && EndOf(at, after) <= now
    ensures var s0 := Run(Initial(clock), cfg, before);
            var n, s1 := |s0.logins|, Apply(s0, cfg, Login(at));
            var s := Run(s1, cfg, after);
            LeftAlone(s1, cfg, after, n) && now < at + cfg.refreshTtl ==>
              && n < |s.heads| && SingleHead(s, n)
              && RefreshStep(s, cfg, Token(n, s.heads[n]), true, now).1
                 == Refreshed(Token(n, s.heads[n] + 1), at + cfg.refreshTtl - now)
  {
    hide Inv, Apply, RefreshStep, SingleHead;
    var s0 := Run(Initial(clock), cfg, before);
    var n, s1 := |s0.logins|, Apply(s0, cfg, Login(at));
    var s := Run(s1, cfg, after);
    FreshSession(cfg, clock, before, at);
    if LeftAlone(s1, cfg, after, n) && now < at + cfg.refreshTtl {
      StaysOpen(s1, cfg, after, n);
      HeadRefreshes(s, cfg, n, now);
    }
  }

  /** The head of an open session refreshes at every time before the absolute expiry. */
  lemma HeadRefreshes(s: State, cfg: Config, n: nat, now: int)
    requires Inv(s, cfg) && cfg.grace >= 1 && Open(s, n) && s.clock <= now < s.logins[n]
    ensures n < |s.heads| && SingleHead(s, n)
    ensures RefreshStep(s, cfg, Token(n, s.heads[n]), true, now).1 == Refreshed(Token(n, s.heads[n] + 1), s.logins[n] - now)
  {
    assert Chain(s, cfg, n);
    ChainHasHead(s, cfg, n);
    assert n !in s.deny;
    OpenRefresh(s, cfg, Token(n, s.heads[n]), now);
  }

  /** A live handle of an open session is answered with its successor. */
  lemma HandleAnswers(s: State, cfg: Config, t: Token, now: int)
    requires Inv(s, cfg) && Open(s, t.session) && s.clock <= now < s.logins[t.session] && s.Live(t, now)
    ensures RefreshStep(s, cfg, t, true, now).1 == Refreshed(Successor(t), s.logins[t.session] - now)
  {
    assert t.session !in s.deny;
  }

  /** No sequence of requests yields a refresh at or after the time of the session's login plus the TTL. */
  lemma NeverPastAbsoluteExpiry(cfg: Config, clock: int, before: seq<Request>, at: int, after: seq<Request>,
                                t: Token, userValid: bool, now: int)
    requires InOrder(clock, before) && cfg.grace >= 1 && cfg.refreshTtl > 0
    requires Run(Initial(clock), cfg, before).clock <= at && InOrder(at, after)
    requires t.session == |Run(Initial(clock), cfg, before).logins| && now >= at + cfg.refreshTtl
    ensures RefreshStep(Run(Apply(Run(Initial(clock), cfg, before), cfg, Login(at)), cfg, after), cfg, t, userValid, now).1.Rejected?
  {
    FreshSession(cfg, clock, before, at);
    RunInv(Apply(Run(Initial(clock), cfg, before), cfg, Login(at)), cfg, after);
  }

  /** A request that does not delete the record of `t` itself. */
  predicate Spares(q: Request, t: Token) {
    !(q.Logout? && q.cookie == Some(t)) && !(q.Refresh? && q.token == t && !q.userValid)
  }

  lemma HandleStep(s: State, cfg: Config, q: Request, t: Token)
    requires Inv(s, cfg) && s.clock <= q.now && cfg.grace >= 1 && Open(s, t.session) && q.now < s.logins[t.session]
    requires !Breaks(s, q, t.session) && !(q.Logout? && q.sid == Some(t.session)) && Spares(q, t)
    requires s.Live(t, q.now) && s.store[t].rotatedTo.Some?
    ensures var s' := Apply(s, cfg, q); t in s'.store && s'.store[t] == s.store[t]
  {
    var n := t.session;
    assert Chain(s, cfg, n);
    assert t == Token(n, t.generation);
    assert n !in s.deny;
    if (q.Refresh? || q.Crash?) && q.token.session == n && s.Live(q.token, q.now) {
      assert q.token == Token(n, q.token.generation);
      if q.token.generation < s.heads[n] { assert Handle(s, cfg, n, q.token.generation); }
    }
  }

  lemma {:induction false} HandleStays(s: State, cfg: Config, qs: seq<Request>, t: Token)
    requires Inv(s, cfg) && cfg.grace >= 1 && Open(s, t.session) && InOrder(s.clock, qs)
    requires LeftAlone(s, cfg, qs, t.session) && forall i :: 0 <= i < |qs| ==> Spares(qs[i], t)
    requires EndOf(s.clock, qs) < s.logins[t.session] && s.Live(t, EndOf(s.clock, qs)) && s.store[t].rotatedTo.Some?
    ensures var s' := Run(s, cfg, qs); t in s'.store && s'.store[t] == s.store[t]
    decreases |qs|
  {
    if qs == [] {
    } else {
      var q, rest := qs[0], qs[1..];
      OrderedEnd(q.now, rest);
      assert rest != [] ==> rest[|rest| - 1] == qs[|qs| - 1];
      OpenStep(s, cfg, q, t.session);
      HandleStep(s, cfg, q, t);
      HandleStays(Apply(s, cfg, q), cfg, rest, t);
    }
  }

  /**
   The life of a replaced token: rotated at `at`, it is answered with the same successor at every time before the end
   of its grace and of its session, if the session is left alone and its own record is not deleted.
   */
  lemma ReplayLifetime(s: State, cfg: Config, t: Token, at: int, after: seq<Request>, now: int)
    requires Inv(s, cfg) && cfg.grace >= 1 && s.clock <= at && Open(s, t.session) && at < s.logins[t.session]
    requires t.generation == s.heads[t.session] && InOrder(at, after) && EndOf(at, after) <= now
    requires var s1 := RefreshStep(s, cfg, t, true, at).0;
             LeftAlone(s1, cfg, after, t.session) && forall i :: 0 <= i < |after| ==> Spares(after[i], t)
    requires now < at + cfg.grace && now < s.logins[t.session]
    ensures var (s1, r) := RefreshStep(s, cfg, t, true, at);
            && r == Refreshed(Successor(t), s.logins[t.session] - at)
            && RefreshStep(Run(s1, cfg, after), cfg, t, true, now).1 == Refreshed(Successor(t), s.logins[t.session] - now)
  {
    hide Inv, Chain, RefreshStep, Handle, Breaks, Apply;
    var s1 := RefreshStep(s, cfg, t, true, at).0;
    RotationOpens(s, cfg, t, at);
    StaysOpen(s1, cfg, after, t.session);
    HandleStays(s1, cfg, after, t);
    HandleAnswers(Run(s1, cfg, after), cfg, t, now);
  }

  lemma RotationOpens(s: State, cfg: Config, t: Token, at: int)
    requires Inv(s, cfg) && cfg.grace >= 1 && s.clock <= at && Open(s, t.session) && at < s.logins[t.session]
    requires t.generation == s.heads[t.session]
    ensures var (s1, r) := RefreshStep(s, cfg, t, true, at); var exp := s.logins[t.session];
            && r == Refreshed(Successor(t), exp - at)
            && Inv(s1, cfg) && Open(s1, t.session) && s1.logins == s.logins && s1.clock == at
            && t in s1.store && s1.store[t].rotatedTo.Some?
            && s1.store[t].expireAt == (if at + cfg.grace < exp then at + cfg.grace else exp)
  {
    assert Chain(s, cfg, t.session);
    assert t.session !in s.deny;
    RefreshInv(s, cfg, t, true, at);
    RotationRecord(s, cfg, t, at);
    Rotated(s, cfg, t, at);
    hide Inv, Chain, RefreshStep;
  }

  /** What a first rotation leaves of the old token, and of its session. */
  lemma RotationRecord(s: State, cfg: Config, t: Token, at: int)
    requires RecordsOk(s, cfg) && s.clock <= at && t.session < |s.logins| && Chain(s, cfg, t.session)
    requires at < s.logins[t.session] && t.session !in s.deny && t.generation == s.heads[t.session]
    ensures var s1, exp := RefreshStep(s, cfg, t, true, at).0, s.logins[t.session];
            && t in s1.store && s1.store[t].rotatedTo.Some? && s1.clock == at && s1.logins == s.logins && s1.deny == s.deny
            && s1.store[t].expireAt == (if at + cfg.grace < exp then at + cfg.grace else exp)
            && s1.disturbed == s.disturbed && s.Live(t, at)
  {
    assert t == Token(t.session, t.generation);
  }

  predicate DeniedForGood(s: State, n: nat) {
    n < |s.logins| && n in s.deny && s.deny[n] >= s.logins[n]
  }

  lemma {:induction false} StaysDenied(s: State, cfg: Config, qs: seq<Request>, n: nat)
    requires Inv(s, cfg) && DeniedForGood(s, n) && InOrder(s.clock, qs) && cfg.grace >= 1
    ensures DeniedForGood(Run(s, cfg, qs), n)
    decreases |qs|
  {
    if qs == [] {
    } else {
      var q := qs[0];
      StepInv(s, cfg, q);
      if q.Logout? && q.sid == Some(n) { LogoutDenies(s, cfg, n, q.carriesExp, q.cookie, q.now); }
      StaysDenied(Apply(s, cfg, q), cfg, qs[1..], n);
    }
  }

  /** After a logout no token of the session family ever refreshes again, whatever happens in between. */
  lemma LogoutIsFinal(cfg: Config, clock: int, before: seq<Request>, n: nat, carriesExp: bool, cookie: Option<Token>, at: int,
                      after: seq<Request>, t: Token, userValid: bool, now: int)
    requires InOrder(clock, before) && cfg.grace >= 1
    requires var s := Run(Initial(clock), cfg, before); n < |s.logins| && s.clock <= at
    requires InOrder(at, after)
    requires t.session == n
    ensures var s := Run(Initial(clock), cfg, before);
            var s' := Run(Apply(s, cfg, Logout(Some(n), carriesExp, cookie, at)), cfg, after);
            RefreshStep(s', cfg, t, userValid, now).1.Rejected?
  {
    var s := Run(Initial(clock), cfg, before);
    var q := Logout(Some(n), carriesExp, cookie, at);
    var s1 := Apply(s, cfg, q);
    RunInv(Initial(clock), cfg, before);
    LogoutDenies(s, cfg, n, carriesExp, cookie, at);
    StepInv(s, cfg, q);
    StaysDenied(s1, cfg, after, n);
    RunInv(s1, cfg, after);
  }

  /**
   The single-head property needs its condition. A logout whose access claims belong to one session and
   whose refresh cookie belongs to another deletes a record of the second without denying it; a replay
   of the predecessor then stores the already rotated token afresh, beside the current head.
   */
  lemma ForeignCookieRevives()
    ensures exists cfg: Config, s: State ::
              && cfg.grace >= 1 && Reaches(cfg, Initial(0), s)
              && s.Live(Token(0, 1), s.clock) && s.store[Token(0, 1)].rotatedTo.None?
              && s.Live(Token(0, 2), s.clock) && s.store[Token(0, 2)].rotatedTo.None?
              && !s.Denied(0, s.clock) && |s.logins| > 0 && s.clock < s.logins[0]
  {
    RevivedFacts();
    RevivedReached();
  }

  const DEFAULTS := Config(86_400, 60)

  /** Two logins, two rotations of the first session, and its first handle replayed after a foreign logout. */
  ghost function Revived(): State {
    Apply(Apply(TwoRotations(), DEFAULTS, Logout(Some(1), true, Some(Token(0, 1)), 0)), DEFAULTS, Refresh(Token(0, 0), true, 0))
  }

  ghost function TwoRotations(): State {
    var s := Apply(Apply(Initial(0), DEFAULTS, Login(0)), DEFAULTS, Login(0));
    Apply(Apply(s, DEFAULTS, Refresh(Token(0, 0), true, 0)), DEFAULTS, Refresh(Token(0, 1), true, 0))
  }

  lemma RevivedFacts()
    ensures var s := Revived();
            && s.Live(Token(0, 1), s.clock) && s.store[Token(0, 1)].rotatedTo.None?
            && s.Live(Token(0, 2), s.clock) && s.store[Token(0, 2)].rotatedTo.None?
            && !s.Denied(0, s.clock) && |s.logins| > 0 && s.clock < s.logins[0]
  {
  }

  lemma RevivedReached()
    ensures Reaches(DEFAULTS, Initial(0), Revived())
  {
    hide Apply;
    var s0 := Initial(0);
    assert Run(s0, DEFAULTS, []) == s0 && AllAtZero([]);
    var s1 := Apply(s0, DEFAULTS, Login(0));
    ReachesStep(DEFAULTS, s0, s0, Login(0));
    var s2 := Apply(s1, DEFAULTS, Login(0));
    ReachesStep(DEFAULTS, s0, s1, Login(0));
    var s3 := Apply(s2, DEFAULTS, Refresh(Token(0, 0), true, 0));
    ReachesStep(DEFAULTS, s0, s2, Refresh(Token(0, 0), true, 0));
    var s4 := Apply(s3, DEFAULTS, Refresh(Token(0, 1), true, 0));
    ReachesStep(DEFAULTS, s0, s3, Refresh(Token(0, 1), true, 0));
    var s5 := Apply(s4, DEFAULTS, Logout(Some(1), true, Some(Token(0, 1)), 0));
    ReachesStep(DEFAULTS, s0, s4, Logout(Some(1), true, Some(Token(0, 1)), 0));
    ReachesStep(DEFAULTS, s0, s5, Refresh(Token(0, 0), true, 0));
  }

  predicate AllAtZero(qs: seq<Request>) {
    forall i :: 0 <= i < |qs| ==> qs[i].now == 0
  }

  ghost predicate Reaches(cfg: Config, s: State, s': State) {
    exists qs: seq<Request> :: AllAtZero(qs) && InOrder(0, qs) && Run(s, cfg, qs) == s'
  }

  lemma {:induction false} RunSnoc(s: State, cfg: Config, qs: seq<Request>, q: Request)
    ensures Run(s, cfg, qs + [q]) == Apply(Run(s, cfg, qs), cfg, q)
    decreases |qs|
  {
    if qs == [] {
      assert [] + [q] == [q];
      assert Run(Apply(s, cfg, q), cfg, [q][1..]) == Apply(s, cfg, q);
    } else {
      assert (qs + [q])[0] == qs[0] && (qs + [q])[1..] == qs[1..] + [q];
      RunSnoc(Apply(s, cfg, qs[0]), cfg, qs[1..], q);
    }
  }

  lemma {:induction false} ZeroInOrder(qs: seq<Request>)
    requires AllAtZero(qs)
    ensures InOrder(0, qs)
  {
    if qs == [] {
    } else {
      ZeroInOrder(qs[1..]);
    }
  }

  lemma ReachesStep(cfg: Config, s: State, s': State, q: Request)
    requires Reaches(cfg, s, s') && q.now == 0
    ensures Reaches(cfg, s, Apply(s', cfg, q))
  {
    var qs: seq<Request> :| AllAtZero(qs) && InOrder(0, qs) && Run(s, cfg, qs) == s';
    RunSnoc(s, cfg, qs, q);
    ZeroInOrder(qs + [q]);
  }

  // ----- the object -----

  /** The credential store behind the handlers; its last four fields are history no decision reads. */
  class SessionStore {
    const cfg: Config
    var store: map<Token, Record>
    var deny: map<nat, int>
    var clock: int
    var logins: seq<int>
    var heads: seq<nat>
    var undelivered: set<Token>
    var disturbed: set<nat>

    function View(): State
      reads this
    {
      State(store, deny, clock, logins, heads, undelivered, disturbed)
    }

    ghost predicate Valid()
      reads this
    {
      cfg.grace >= 1 && Inv(View(), cfg)
    }

    constructor (cfg: Config, clock: int)
      requires cfg.grace >= 1
      ensures Valid() && this.cfg == cfg && View() == Initial(clock)
    {
      this.cfg := cfg;
      this.clock := clock;
      store, deny, logins, heads, undelivered, disturbed := map[], map[], [], [], {}, {};
    }

    /** SETEX of a fresh credential; refused once the session is over or denied. */
    method StoreFresh(t: Token, absoluteExp: int, now: int) returns (ok: bool)
      modifies this`store
      ensures ok <==> absoluteExp > now && !View().Denied(t.session, now)
      ensures store == if ok then old(store)[t := Fresh(t.session, absoluteExp)] else old(store)
    {
      ok := absoluteExp - now > 0 && !(t.session in deny && now < deny[t.session]);
      if ok { store := store[t := Fresh(t.session, absoluteExp)]; }
    }

    /** A new session: its root token, stored until login plus TTL; nothing if the TTL is zero. */
    method HandleLogin(now: int) returns (t: Option<Token>)
      requires Valid() && clock <= now
      modifies this
      ensures Valid() && View() == LoginStep(old(View()), cfg, now)
      ensures cfg.refreshTtl > 0 ==>
                t == Some(Token(|old(logins)|, 0)) && logins == old(logins) + [now + cfg.refreshTtl] && View().Live(t.value, now)
      ensures cfg.refreshTtl == 0 ==> t.None? && store == old(store)
    {
      LoginInv(View(), cfg, now);
      assert |logins| !in deny;
      t := ProcessLogin(now);
    }

    method ProcessLogin(now: int) returns (t: Option<Token>)
      requires |logins| !in deny
      modifies this
      ensures View() == LoginStep(old(View()), cfg, now)
      ensures cfg.refreshTtl > 0 ==>
                t == Some(Token(|old(logins)|, 0)) && logins == old(logins) + [now + cfg.refreshTtl] && View().Live(t.value, now)
      ensures cfg.refreshTtl == 0 ==> t.None? && store == old(store)
    {
      clock := now;
      var root, absoluteExp := Token(|logins|, 0), now + cfg.refreshTtl;
      var stored := StoreFresh(root, absoluteExp, now);
      if !stored { return None; }
      logins, heads := logins + [absoluteExp], heads + [0];
      t := Some(root);
    }

    method HandleRefresh(t: Token, userValid: bool, now: int) returns (response: Response)
      requires Valid() && clock <= now
      modifies this
      ensures Valid()
      ensures (View(), response) == RefreshStep(old(View()), cfg, t, userValid, now)
    {
      RefreshInv(View(), cfg, t, userValid, now);
      response := ProcessRefresh(t, userValid, now);
    }

    /** The handler's checks in order; each failure after the lookup deletes the credential. */
    method ProcessRefresh(t: Token, userValid: bool, now: int) returns (response: Response)
      requires t in store ==> store[t].session == t.session
      modifies this
      ensures (View(), response) == RefreshStep(old(View()), cfg, t, userValid, now)
    {
      clock := now;
      if t !in store || store[t].expireAt <= now { return Rejected(Expired); }
      var r := store[t];
      if r.absoluteExp <= now {
        store := store - {t};
        return Rejected(Expired);
      }
      if r.session in deny && now < deny[r.session] {
        store := store - {t};
        return Rejected(Revoked);
      }
      if !userValid {
        disturbed := disturbed + Broken(View(), t, now);
        store := store - {t};
        return Rejected(UserInvalid);
      }
      response := RotateToken(t, r, now);
    }

    method RotateToken(t: Token, r: Record, now: int) returns (response: Response)
      requires r.absoluteExp > now && r.session == t.session && !View().Denied(t.session, now)
      modifies this
      ensures (View(), response) == Rotate(old(View()), cfg, t, r, now)
    {
      var ttl, next := r.absoluteExp - now, Successor(t);
      if r.rotatedTo.Some? {
        if r.rotatedTo.value != next {
          store := store - {t};
          return Rejected(BadRotation);
        }
        if r.graceExp <= now {
          store := store - {t};
          return Rejected(GraceOver);
        }
        if !(next in store && now < store[next].expireAt) {
          var stored := StoreFresh(next, r.absoluteExp, now);
        }
        undelivered := undelivered - {next};
        return Refreshed(next, ttl);
      }
      var stored := StoreFresh(next, r.absoluteExp, now);
      var graceSeconds := if cfg.grace < ttl then cfg.grace else ttl;
      store := store[t := Record(r.session, r.absoluteExp, Some(next), now + graceSeconds, now + graceSeconds)];
      if t.session < |heads| { heads := heads[t.session := next.generation]; }
      disturbed := disturbed + (if t in undelivered then {t.session} else {});
      undelivered := undelivered - {next};
      response := Refreshed(next, ttl);
    }

    /** The same refresh, dying after the successor is stored. */
    method CrashInRefresh(t: Token, now: int)
      requires Valid() && clock <= now
      modifies this
      ensures Valid() && View() == CrashStep(old(View()), t, now)
    {
      CrashInv(View(), cfg, t, now);
      clock := now;
      if t in store && now < store[t].expireAt && store[t].rotatedTo.None? {
        var stored := StoreFresh(Successor(t), store[t].absoluteExp, now);
        if stored { undelivered := undelivered + {Successor(t)}; }
      }
    }

    method HandleLogout(sid: Option<nat>, carriesExp: bool, cookie: Option<Token>, now: int)
      requires Valid() && clock <= now
      modifies this
      ensures Valid()
      ensures View() == LogoutStep(old(View()), cfg, sid, carriesExp, cookie, now)
      ensures sid.Some? && sid.value < |logins| ==> DeniedForGood(View(), sid.value)
    {
      LogoutInv(View(), cfg, sid, carriesExp, cookie, now);
      if sid.Some? && sid.value < |logins| { LogoutDenies(View(), cfg, sid.value, carriesExp, cookie, now); }
      ProcessLogout(sid, carriesExp, cookie, now);
    }

    /** Deny the family until its absolute expiry, then delete the presented credential. */
    method ProcessLogout(sid: Option<nat>, carriesExp: bool, cookie: Option<Token>, now: int)
      modifies this
      ensures View() == LogoutStep(old(View()), cfg, sid, carriesExp, cookie, now)
    {
      clock := now;
      if sid.Some? && sid.value < |logins| {
        var exp := logins[sid.value];
        var familyTtl := if carriesExp && exp != 0 then (if exp - now > 1 then exp - now else 1) else cfg.refreshTtl;
        deny := deny[sid.value := now + familyTtl];
      }
      if cookie.Some? {
        disturbed := disturbed + (if sid == Some(cookie.value.session) then {} else Broken(View(), cookie.value, now));
        store := store - {cookie.value};
      }
    }
  }
}
