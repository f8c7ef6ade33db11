/** The device-authorization poller: section 3.5 of RFC 8628, with the interval capped at 120 s. */
module DeviceAuth {
  import opened Wrappers

  type Code = nat

  const MAX_INTERVAL: nat := 120

  /** What the service shows. */
  datatype Projection =
    | NotConfigured | Unconfigured | Disconnected
    | WaitingUser(interval: nat, retryAfter: nat)
    | Authorized(secret: nat) | Denied | Expired | NeedsAction

  datatype Session = Session(code: Code, expires: real, nextPoll: real, interval: nat)

  /** The provider's answer to one poll; `Other` is every other error, and a token that the service
      refuses. */
  datatype Answer = Pending | SlowDown | AccessDenied | ExpiredToken | Other | Granted

  /** How a poll that must wait went on: the clock when it did, and the interval from then on. */
  datatype Waiting = Waiting(resumed: real, interval: nat)

  /** The history: sessions started, provider polls, and credentials stored.  A poll has the reading of
      the clock that found the session alive, and the instant at which its request starts. */
  datatype Entry =
    | Started(code: Code, at: real, interval: nat)
    | Polled(code: Code, check: real, at: real, expires: real, answer: Answer, waiting: Option<Waiting>)
    | Stored(code: Code)

  // ---------- intervals ----------

  function Min(a: nat, b: nat): nat { if a <= b then a else b }

  function Slower(interval: nat): nat { Min(MAX_INTERVAL, interval + 5) }

  function SlowDowns(log: seq<Entry>, code: Code): nat {
    if log == [] then 0
    else
      var e := log[|log| - 1];
      SlowDowns(log[..|log| - 1], code)
      + (if e.Polled? && e.code == code && e.answer == SlowDown && e.waiting.Some? then 1 else 0)
  }

  /** The interval a session was started with. */
  function FirstInterval(log: seq<Entry>, code: Code): Option<nat> {
    if log == [] then None
    else if log[|log| - 1].Started? && log[|log| - 1].code == code then Some(log[|log| - 1].interval)
    else FirstInterval(log[..|log| - 1], code)
  }

  /** The early-poll hint: `max(1, int(d + 0.999))`. */
  function RetryAfter(d: real): nat
    requires d > 0.0
  {
    var whole := (d + 0.999).Floor;
    if whole < 1 then 1 else whole
  }

  /** The hint is never short by more than a millisecond, and never a second too long. */
  lemma RetryIsEnough(d: real)
    requires d > 0.0
    ensures RetryAfter(d) as real >= d - 0.001
    ensures RetryAfter(d) as real < d + 1.0
  {
    var whole := (d + 0.999).Floor;
    assert whole as real <= d + 0.999 < whole as real + 1.0;
  }

  // ---------- histories ----------

  predicate Waits(e: Entry, code: Code) { e.Polled? && e.code == code && e.waiting.Some? }

  /** A poll after one that had to wait starts no earlier than that interval allows. */
  predicate Patient(log: seq<Entry>) {
    forall i, j | 0 <= i < j < |log| && log[j].Polled? && Waits(log[i], log[j].code) ::
      log[i].at <= log[i].waiting.value.resumed
      && log[i].waiting.value.resumed + log[i].waiting.value.interval as real <= log[j].at
  }

  /** After k slow_downs the interval is the first one plus 5k, capped. */
  predicate Backoff(log: seq<Entry>) {
    forall j | 0 <= j < |log| && log[j].Polled? && log[j].waiting.Some? ::
      BackoffAt(log[..j + 1], log[j].code, log[j].waiting.value.interval)
  }

  predicate BackoffAt(log: seq<Entry>, code: Code, interval: nat) {
    && FirstInterval(log, code).Some?
    && interval == Min(120, FirstInterval(log, code).value + 5 * SlowDowns(log, code))
  }

  /** No session stores two credentials, and none is polled after it stored one. */
  predicate StoresOnce(log: seq<Entry>) {
    forall i, j | 0 <= i < j < |log| && log[i].Stored? :: log[j].Started? || log[j].code != log[i].code
  }

  /** The expiry check that precedes every provider poll found the session alive. */
  predicate CheckedBefore(log: seq<Entry>) {
    forall i | 0 <= i < |log| && log[i].Polled? :: log[i].check < log[i].expires && log[i].check <= log[i].at
  }

  /** The provider is asked at or after the expiry of the session. */
  predicate Late(e: Entry) { e.Polled? && e.expires <= e.at }

  predicate NeverLate(log: seq<Entry>) { forall i | 0 <= i < |log| :: !Late(log[i]) }

  predicate Lawful(log: seq<Entry>) {
    Patient(log) && Backoff(log) && StoresOnce(log) && CheckedBefore(log)
  }

  /** What the live session owes to the history. */
  predicate Live(log: seq<Entry>, s: Session) {
    && BackoffAt(log, s.code, s.interval)
    && (forall i | 0 <= i < |log| && Waits(log[i], s.code) ::
          log[i].at <= log[i].waiting.value.resumed
          && log[i].waiting.value.resumed + log[i].waiting.value.interval as real <= s.nextPoll)
    && (forall i | 0 <= i < |log| :: !(log[i].Stored? && log[i].code == s.code))
  }

  predicate HistoryInv(log: seq<Entry>, session: Option<Session>) {
    Lawful(log) && (session.Some? ==> Live(log, session.value))
  }

  lemma AppendLate(log: seq<Entry>, e: Entry)
    ensures NeverLate(log + [e]) <==> NeverLate(log) && !Late(e)
  {
    var all := log + [e];
    assert all[|log|] == e;
    forall i | 0 <= i < |log| ensures all[i] == log[i] { }
    if NeverLate(all) {
      forall i | 0 <= i < |log| ensures !Late(log[i]) { assert !Late(all[i]); }
    }
  }

  /** A request, with the credential it may bring, is late or not by its own start. */
  lemma LateAfter(log: seq<Entry>, e: Entry, stored: Entry)
    requires stored.Stored?
    ensures NeverLate(log + [e] + []) <==> NeverLate(log) && !Late(e)
    ensures NeverLate(log + [e] + [stored]) <==> NeverLate(log) && !Late(e)
  {
    AppendLate(log, e);
    AppendLate(log + [e], stored);
    assert log + [e] + [] == log + [e];
  }

  lemma BackoffOther(log: seq<Entry>, e: Entry, code: Code, interval: nat)
    requires BackoffAt(log, code, interval)
    requires e.Stored? || (e.Polled? && !(e.code == code && e.answer == SlowDown && e.waiting.Some?))
    ensures BackoffAt(log + [e], code, interval)
  {
    assert (log + [e])[..|log|] == log;
  }

  lemma BackoffSlower(log: seq<Entry>, e: Entry, code: Code, interval: nat)
    requires BackoffAt(log, code, interval) && e.Polled? && e.code == code && e.answer == SlowDown && e.waiting.Some?
    ensures BackoffAt(log + [e], code, Slower(interval))
  {
    assert (log + [e])[..|log|] == log;
  }

  lemma BackoffAppend(log: seq<Entry>, e: Entry)
    requires Backoff(log)
    requires e.Polled? && e.waiting.Some? ==> BackoffAt(log + [e], e.code, e.waiting.value.interval)
    ensures Backoff(log + [e])
  {
    var all := log + [e];
    forall j | 0 <= j < |all| && all[j].Polled? && all[j].waiting.Some?
      ensures BackoffAt(all[..j + 1], all[j].code, all[j].waiting.value.interval)
    {
      if j < |log| { assert all[..j + 1] == log[..j + 1]; } else { assert all[..j + 1] == all; }
    }
  }

  /** A new session, under a fresh device code, replaces whatever session there was. */
  lemma StartKeeps(log: seq<Entry>, s: Session, at: real)
    requires Lawful(log) && s.interval <= MAX_INTERVAL && forall i | 0 <= i < |log| :: log[i].code != s.code
    ensures HistoryInv(log + [Started(s.code, at, s.interval)], Some(s))
  {
    var e := Started(s.code, at, s.interval);
    var all := log + [e];
    BackoffAppend(log, e);
    NoSlowDowns(log, s.code);
    assert all[..|log|] == log;
    forall i | 0 <= i < |all| ensures !Waits(all[i], s.code) && !(all[i].Stored? && all[i].code == s.code) {
      if i < |log| { assert all[i] == log[i]; }
    }
  }

  lemma {:induction false} NoSlowDowns(log: seq<Entry>, code: Code)
    requires forall i | 0 <= i < |log| :: log[i].code != code
    ensures SlowDowns(log, code) == 0
  {
    if log != [] { NoSlowDowns(log[..|log| - 1], code); }
  }

  /** A provider poll of the live session. */
  lemma PollKeeps(log: seq<Entry>, s: Session, e: Entry)
    requires HistoryInv(log, Some(s)) && e.Polled? && e.code == s.code && e.expires == s.expires
    requires e.check < s.expires && e.check <= e.at && s.nextPoll <= e.at
    requires e.waiting.Some? ==>
               e.at <= e.waiting.value.resumed
               && e.waiting.value.interval == (if e.answer == SlowDown then Slower(s.interval) else s.interval)
    ensures Lawful(log + [e])
    ensures e.waiting.None? ==> Live(log + [e], s)
    ensures e.waiting.Some? ==>
              var w := e.waiting.value;
              Live(log + [e], s.(interval := w.interval, nextPoll := w.resumed + w.interval as real))
  {
    if e.waiting.Some? && e.answer == SlowDown {
      BackoffSlower(log, e, s.code, s.interval);
    } else {
      BackoffOther(log, e, s.code, s.interval);
    }
    BackoffAppend(log, e);
    PollPatient(log, s, e);
  }

  lemma PollPatient(log: seq<Entry>, s: Session, e: Entry)
    requires HistoryInv(log, Some(s)) && e.Polled? && e.code == s.code && s.nextPoll <= e.at
    ensures Patient(log + [e]) && StoresOnce(log + [e])
  {
  }

  /** Storing the credential ends the session. */
  lemma StoreKeeps(log: seq<Entry>, s: Session)
    requires HistoryInv(log, Some(s))
    ensures Lawful(log + [Stored(s.code)])
  {
    BackoffAppend(log, Stored(s.code));
  }

  // ---------- the service ----------

  /** The provider's answer to a start: the checked fields, as sent. */
  datatype DeviceReply = Unusable | DeviceReply(code: Code, expiresIn: int, interval: int)

  predicate Usable(reply: DeviceReply) {
    reply.DeviceReply? && 30 <= reply.expiresIn <= 7200 && 1 <= reply.interval <= MAX_INTERVAL
  }

  /** Waiting goes on with the same or a slower interval, counted from `now`, unless the session has
      expired at `check`. */
  predicate Waited(s: Session, slowDown: bool, check: real, now: real, session: Option<Session>, last: Projection) {
    var interval := if slowDown then Slower(s.interval) else s.interval;
    if s.expires <= check then session == None && last == Expired
    else && session == Some(s.(interval := interval, nextPoll := now + interval as real))
         && last == WaitingUser(interval, interval)
  }

  /** A poll, and the credential it brought, go into the history. */
  predicate Asked(before: seq<Entry>, after: seq<Entry>, s: Session, polled: Entry, secret: Option<nat>) {
    polled.Polled?
    && after == before + [polled] + (if polled.answer == Granted && secret.Some? then [Stored(s.code)] else [])
  }

  /** What each answer leads to. */
  predicate Answered(s: Session, was: Projection, answer: Answer, secret: Option<nat>, check: real, now: real,
                     raised: bool, session: Option<Session>, last: Projection) {
    match answer
    case Pending => !raised && Waited(s, false, check, now, session, last)
    case SlowDown => !raised && Waited(s, true, check, now, session, last)
    case AccessDenied => !raised && session == None && last == Denied
    case ExpiredToken => !raised && session == None && last == Expired
    case Other => raised && session == Some(s) && last == was
    case Granted =>
      session == None && raised == secret.None? && last == (if secret.Some? then Authorized(secret.value) else NeedsAction)
  }

  class GoogleDriveDeviceAuthService {
    const configured: bool
    var session: Option<Session>
    var last: Projection
    ghost var log: seq<Entry>

    constructor (configured: bool)
      ensures Valid() && log == [] && session == None && this.configured == configured
      ensures last == if configured then Unconfigured else NotConfigured
    {
      this.configured := configured;
      session := None;
      last := if configured then Unconfigured else NotConfigured;
      log := [];
    }

    ghost predicate Valid()
      reads this
    {
      HistoryInv(log, session)
    }

    /** The provider may be polled: the session is alive at the first reading of the clock, and due at
        the second. */
    predicate Due(check: real, now: real)
      reads this
    {
      configured && session.Some? && check < session.value.expires && session.value.nextPoll <= now
    }

    /** `start`. */
    method Start(reply: DeviceReply, now: real) returns (raised: bool)
      requires Valid()
      requires reply.DeviceReply? ==> forall i | 0 <= i < |log| :: log[i].code != reply.code
      modifies this
      ensures Valid()
      ensures raised <==> !(configured && Usable(reply))
      ensures raised ==> session == old(session) && last == old(last) && log == old(log)
      ensures NeverLate(log) <==> NeverLate(old(log))
      ensures !raised ==>
                && session == Some(Session(reply.code, now + reply.expiresIn as real, now + reply.interval as real, reply.interval))
                && last == WaitingUser(reply.interval, reply.interval)
                && log == old(log) + [Started(reply.code, now, reply.interval)]
    {
      if !configured || reply == Unusable { return true; }
      if !(30 <= reply.expiresIn <= 7200 && 1 <= reply.interval <= 120) { return true; }
      var started := Session(reply.code, now + reply.expiresIn as real, now + reply.interval as real, reply.interval);
      StartKeeps(log, started, now);
      session := Some(started);
      last := WaitingUser(reply.interval, reply.interval);
      AppendLate(log, Started(reply.code, now, reply.interval));
      log := log + [Started(reply.code, now, reply.interval)];
      return false;
    }

    /** `_expire_if_needed`. */
    method ExpireIfNeeded(now: real)
      modifies this`session, this`last
      ensures if old(session).Some? && old(session).value.expires <= now
              then session == None && last == Expired
              else session == old(session) && last == old(last)
    {
      if session.Some? && now >= session.value.expires {
        session := None;
        last := Expired;
      }
    }

    /** `_continue_waiting`, after its expiry check at `check`. */
    method ContinueWaiting(slowDown: bool, check: real, now: real) returns (waiting: Option<Waiting>)
      requires session.Some?
      modifies this`session, this`last
      ensures Waited(old(session).value, slowDown, check, now, session, last)
      ensures waiting == if old(session).value.expires <= check then None
                         else Some(Waiting(now, if slowDown then Slower(old(session).value.interval) else old(session).value.interval))
    {
      ExpireIfNeeded(check);
      if session.None? { return None; }
      var interval := session.value.interval;
      if slowDown { interval := Slower(interval); }
      session := Some(session.value.(interval := interval, nextPoll := now + interval as real));
      last := WaitingUser(interval, interval);
      return Some(Waiting(now, interval));
    }

    /** The entry a poll whose request starts at `start` adds to the history. */
    ghost function PollEntry(s: Session, check: real, start: real, answer: Answer, check': real, now': real): Entry {
      var waiting := if (answer == Pending || answer == SlowDown) && check' < s.expires
                     then Some(Waiting(now', if answer == SlowDown then Slower(s.interval) else s.interval)) else None;
      Polled(s.code, check, start, s.expires, answer, waiting)
    }

    /** `poll`, with the instants in order: the expiry check, the due check, the start of the provider
        request, which nothing looks at the clock for, and, when the provider lets the user wait, the
        second expiry check and the time of resuming.  `secret` is what storing the credential gives,
        if it succeeds. */
    method Poll(check: real, now: real, start: real, answer: Answer, secret: Option<nat>, check': real, now': real)
      returns (raised: bool)
      requires Valid() && check <= now <= start <= check' <= now'
      modifies this
      ensures Valid()
      ensures NeverLate(log) <==>
                NeverLate(old(log)) && !(old(Due(check, now)) && old(session).value.expires <= start)
      ensures !old(Due(check, now)) ==> log == old(log)
      ensures old(Due(check, now)) ==>
                var s := old(session).value;
                && Asked(old(log), log, s, PollEntry(s, check, start, answer, check', now'), secret)
                && (PollEntry(s, check, start, answer, check', now').waiting.Some? <==> session.Some? && answer != Other)
                && Answered(s, old(last), answer, secret, check', now', raised, session, last)
      ensures !configured ==> raised && session == old(session) && last == old(last)
      ensures configured && old(session).None? ==>
                session == None && last == old(last)
                && (raised <==> !old(last).Authorized? && !old(last).Denied? && !old(last).Expired?)
      ensures configured && old(session).Some? && old(session).value.expires <= check ==>
                !raised && session == None && last == Expired
      ensures configured && old(session).Some? && check < old(session).value.expires && now < old(session).value.nextPoll ==>
                !raised && session == old(session) && last.WaitingUser? && last.interval == session.value.interval
                && last.retryAfter >= 1
                && session.value.nextPoll - now - 0.001 <= last.retryAfter as real < session.value.nextPoll - now + 1.0
    {
      if !configured { return true; }
      ExpireIfNeeded(check);
      if session.None? { return !(last.Authorized? || last.Denied? || last.Expired?); }
      var s := session.value;
      if now < s.nextPoll {
        RetryIsEnough(s.nextPoll - now);
        last := WaitingUser(s.interval, RetryAfter(s.nextPoll - now));
        return false;
      }
      raised := Ask(s, check, start, answer, secret, check', now');
      LateAfter(old(log), PollEntry(s, check, start, answer, check', now'), Stored(s.code));
    }

    /** The provider request of `poll`, and what each answer leads to. */
    method Ask(s: Session, ghost check: real, ghost start: real, answer: Answer, secret: Option<nat>, check': real, now': real)
      returns (raised: bool)
      requires Valid() && session == Some(s) && check < s.expires && check <= start <= check' <= now' && s.nextPoll <= start
      modifies this
      ensures Valid()
      ensures Asked(old(log), log, s, PollEntry(s, check, start, answer, check', now'), secret)
      ensures PollEntry(s, check, start, answer, check', now').waiting.Some? <==> session.Some? && answer != Other
      ensures Answered(s, old(last), answer, secret, check', now', raised, session, last)
    {
      ghost var e := PollEntry(s, check, start, answer, check', now');
      PollKeeps(log, s, e);
      log := log + [e];
      match answer
      case Pending =>
        var waiting := ContinueWaiting(false, check', now');
        return false;
      case SlowDown =>
        var waiting := ContinueWaiting(true, check', now');
        return false;
      case AccessDenied => session, last := None, Denied; return false;
      case ExpiredToken => session, last := None, Expired; return false;
      case Other => return true;
      case Granted =>
        session := None;
        if secret.None? {
          last := NeedsAction;
          return true;
        }
        StoreKeeps(log, s);
        log := log + [Stored(s.code)];
        last := Authorized(secret.value);
        return false;
    }

    /** `clear`. */
    method Clear(state: Projection)
      requires Valid()
      modifies this
      ensures Valid() && session == None && last == state && log == old(log)
    {
      session, last := None, state;
    }
  }

  // ---------- over whole histories ----------

  /** A late poll needs no late reading: both readings of the clock see 29.9 seconds of the 30, and the
      request starts at 30.1. */
  method LatePollHappens() returns (service: GoogleDriveDeviceAuthService)
    ensures fresh(service) && service.Valid() && !NeverLate(service.log)
    ensures |service.log| == 2 && service.log[1].Polled?
    ensures service.log[1].check == 29.9 && service.log[1].at == 30.1 && service.log[1].expires == 30.0
  {
    service := new GoogleDriveDeviceAuthService(true);
    var raised := service.Start(DeviceReply(1, 30, 5), 0.0);
    assert service.Due(29.9, 29.9);
    raised := service.Poll(29.9, 29.9, 30.1, Pending, None, 30.1, 30.1);
  }

  /** Each started session stores at most one credential. */
  function Credentials(log: seq<Entry>, code: Code): nat {
    if log == [] then 0
    else Credentials(log[..|log| - 1], code) + (if log[|log| - 1] == Stored(code) then 1 else 0)
  }

  lemma {:induction false} AtMostOneCredential(log: seq<Entry>, code: Code)
    requires StoresOnce(log)
    ensures Credentials(log, code) <= 1
  {
    if log != [] {
      var before := log[..|log| - 1];
      AtMostOneCredential(before, code);
      if log[|log| - 1] == Stored(code) {
        forall i | 0 <= i < |before| ensures before[i] != Stored(code) {
          assert before[i] == log[i];
        }
        NoCredential(before, code);
      }
    }
  }

  lemma {:induction false} NoCredential(log: seq<Entry>, code: Code)
    requires forall i | 0 <= i < |log| :: log[i] != Stored(code)
    ensures Credentials(log, code) == 0
  {
    if log != [] { NoCredential(log[..|log| - 1], code); }
  }

  /** The interval only grows, in steps of 5 up to the cap, whatever the answers are. */
  lemma IntervalGrows(log: seq<Entry>, i: nat, j: nat)
    requires Lawful(log) && i < j < |log| && log[i].Polled? && log[j].Polled? && log[i].code == log[j].code
    requires log[i].waiting.Some? && log[j].waiting.Some?
    requires forall k | i < k <= j :: !log[k].Started?
    ensures log[i].waiting.value.interval <= log[j].waiting.value.interval <= MAX_INTERVAL
  {
    var code := log[i].code;
    assert BackoffAt(log[..i + 1], code, log[i].waiting.value.interval);
    assert BackoffAt(log[..j + 1], code, log[j].waiting.value.interval);
    SlowDownsGrow(log, i + 1, j + 1, code);
  }

  lemma {:induction false} SlowDownsGrow(log: seq<Entry>, i: nat, j: nat, code: Code)
    requires i <= j <= |log| && forall k | i <= k < j :: !log[k].Started?
    ensures SlowDowns(log[..i], code) <= SlowDowns(log[..j], code)
    ensures FirstInterval(log[..i], code) == FirstInterval(log[..j], code)
  {
    if i < j {
      SlowDownsGrow(log, i, j - 1, code);
      assert log[..j][..j - 1] == log[..j - 1];
    }
  }
}
