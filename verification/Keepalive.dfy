// Keepalive of an upgraded connection: configuration checks, the write timeout of pings, and
// the read deadline that only pongs move (Ping and Pong of sections 5.5.2 and 5.5.3 of
// RFC 6455).
module Keepalive {
  import opened Sequences

  /** Durations are in nanoseconds. */
  datatype Config = Config(
    readBuffer: int, writeBuffer: int, readLimit: int, noReadLimit: bool, ping: int, idle: int,
    maxActive: int, maxPerClient: int, maxUpgrades: int)

  datatype ConfigError =
    | ReadBufferNegative | WriteBufferNegative | ReadLimitNegative | ReadLimitConflict
    | PingNegative | IdleNegative | PingMissing | PingNotBelowIdle
    | MaxActiveNegative | MaxPerClientNegative | MaxUpgradesNegative

  const SECOND: int := 1_000_000_000

  const DEFAULT_READ_LIMIT: int := 16 * 1024 * 1024

  function CheckConfig(cfg: Config): Option<ConfigError> {
    if cfg.readBuffer < 0 then Some(ReadBufferNegative)
    else if cfg.writeBuffer < 0 then Some(WriteBufferNegative)
    else if cfg.readLimit < 0 then Some(ReadLimitNegative)
    else if cfg.noReadLimit && cfg.readLimit > 0 then Some(ReadLimitConflict)
    else if cfg.ping < 0 then Some(PingNegative)
    else if cfg.idle < 0 then Some(IdleNegative)
    else if cfg.idle > 0 && cfg.ping <= 0 then Some(PingMissing)
    else if cfg.idle > 0 && cfg.ping >= cfg.idle then Some(PingNotBelowIdle)
    else if cfg.maxActive < 0 then Some(MaxActiveNegative)
    else if cfg.maxPerClient < 0 then Some(MaxPerClientNegative)
    else if cfg.maxUpgrades < 0 then Some(MaxUpgradesNegative)
    else None
  }

  /** The read limit to set; 0 sets none. */
  function ReadLimit(cfg: Config): int {
    if cfg.noReadLimit then 0 else if cfg.readLimit > 0 then cfg.readLimit else DEFAULT_READ_LIMIT
  }

  function PingWriteTimeout(cfg: Config): int {
    var capped := if cfg.idle > 0 && (cfg.ping <= 0 || cfg.ping > cfg.idle) then cfg.idle else cfg.ping;
    if capped <= 0 then SECOND else capped
  }

  function Numbers(cfg: Config): seq<int> {
    [cfg.readBuffer, cfg.writeBuffer, cfg.readLimit, cfg.ping, cfg.idle,
     cfg.maxActive, cfg.maxPerClient, cfg.maxUpgrades]
  }

  /** Accepted are exactly the configurations without negative values in which an unlimited
      read has no limit and pings come within every idle period. */
  lemma AcceptedExactly(cfg: Config)
    ensures CheckConfig(cfg) == None <==>
      && (forall i :: 0 <= i < |Numbers(cfg)| ==> Numbers(cfg)[i] >= 0)
      && (cfg.noReadLimit ==> cfg.readLimit == 0)
      && (cfg.idle > 0 ==> 0 < cfg.ping < cfg.idle)
  {
    var all := Numbers(cfg);
    assert all[0] == cfg.readBuffer && all[1] == cfg.writeBuffer && all[2] == cfg.readLimit && all[3] == cfg.ping;
    assert all[4] == cfg.idle && all[5] == cfg.maxActive && all[6] == cfg.maxPerClient && all[7] == cfg.maxUpgrades;
  }

  /** What each error complains about. */
  predicate Violates(cfg: Config, e: ConfigError) {
    match e
    case ReadBufferNegative => cfg.readBuffer < 0
    case WriteBufferNegative => cfg.writeBuffer < 0
    case ReadLimitNegative => cfg.readLimit < 0
    case ReadLimitConflict => cfg.noReadLimit && cfg.readLimit > 0
    case PingNegative => cfg.ping < 0
    case IdleNegative => cfg.idle < 0
    case PingMissing => cfg.idle > 0 && cfg.ping <= 0
    case PingNotBelowIdle => cfg.idle > 0 && cfg.ping >= cfg.idle
    case MaxActiveNegative => cfg.maxActive < 0
    case MaxPerClientNegative => cfg.maxPerClient < 0
    case MaxUpgradesNegative => cfg.maxUpgrades < 0
  }

  const CHECK_ORDER: seq<ConfigError> :=
    [ReadBufferNegative, WriteBufferNegative, ReadLimitNegative, ReadLimitConflict, PingNegative, IdleNegative,
     PingMissing, PingNotBelowIdle, MaxActiveNegative, MaxPerClientNegative, MaxUpgradesNegative]

  /** The error of a rejected configuration is the first in order that it violates. */
  lemma FirstViolationIsReported(cfg: Config, i: nat)
    requires i < |CHECK_ORDER|
    ensures CheckConfig(cfg) == Some(CHECK_ORDER[i]) <==>
      Violates(cfg, CHECK_ORDER[i]) && forall j :: 0 <= j < i ==> !Violates(cfg, CHECK_ORDER[j])
  {
    assert CHECK_ORDER[0] == ReadBufferNegative && CHECK_ORDER[1] == WriteBufferNegative;
    assert CHECK_ORDER[2] == ReadLimitNegative && CHECK_ORDER[3] == ReadLimitConflict;
    assert CHECK_ORDER[4] == PingNegative && CHECK_ORDER[5] == IdleNegative;
    assert CHECK_ORDER[6] == PingMissing && CHECK_ORDER[7] == PingNotBelowIdle;
    assert CHECK_ORDER[8] == MaxActiveNegative && CHECK_ORDER[9] == MaxPerClientNegative;
    assert CHECK_ORDER[10] == MaxUpgradesNegative;
  }

  /** With an accepted configuration pings are written within their own interval, which is
      shorter than the idle timeout, and within a second if none are sent; the read limit is the
      configured one or else the default, and reads are unlimited only if asked for. */
  lemma AcceptedTimings(cfg: Config)
    requires CheckConfig(cfg) == None
    ensures cfg.idle > 0 ==> 0 < PingWriteTimeout(cfg) == cfg.ping < cfg.idle
    ensures PingWriteTimeout(cfg) == if cfg.ping > 0 then cfg.ping else 1_000_000_000
    ensures ReadLimit(cfg) == 0 <==> cfg.noReadLimit
    ensures cfg.readLimit > 0 ==> ReadLimit(cfg) == cfg.readLimit
    ensures cfg.readLimit == 0 && !cfg.noReadLimit ==> ReadLimit(cfg) == 16 * 1024 * 1024
  {
  }

  // ---- The read deadline ----

  /** What the server reads, at nanoseconds after the set-up. */
  datatype Event = Pong(time: int) | DataFrame(time: int)

  /** The read deadline after these events; it starts at the idle timeout. */
  function Deadline(idle: int, events: seq<Event>): int {
    if events == [] then idle
    else
      var last := events[|events| - 1];
      if last.Pong? then last.time + idle else Deadline(idle, events[..|events| - 1])
  }

  /** Without an idle timeout no deadline is set, and no pong sets one. */
  function ReadDeadline(idle: int, events: seq<Event>): Option<int> {
    if idle > 0 then Some(Deadline(idle, events)) else None
  }

  predicate Ordered(events: seq<Event>, now: int) {
    && (forall i :: 0 <= i < |events| ==> 0 <= events[i].time <= now)
    && (forall i, j :: 0 <= i < j < |events| ==> events[i].time <= events[j].time)
  }

  predicate InTime(time: int, deadline: Option<int>) { deadline.Some? ==> time < deadline.value }

  /** The deadline has not passed when any of the events arrives, nor now. */
  predicate NeverExpires(idle: int, events: seq<Event>, now: int) {
    forall n :: 0 <= n <= |events| ==>
      InTime(if n < |events| then events[n].time else now, ReadDeadline(idle, events[..n]))
  }

  /** A pong for ping k, which goes out at k * ping, came within delay. */
  predicate AnsweredPing(events: seq<Event>, ping: int, delay: int, k: nat) {
    exists i :: 0 <= i < |events| && events[i].Pong? && k * ping <= events[i].time <= k * ping + delay
  }

  /** Every ping whose delay has passed was answered. */
  predicate Answered(events: seq<Event>, ping: int, delay: int, now: int) {
    forall k: nat {:trigger AnsweredPing(events, ping, delay, k)} ::
      1 <= k <= now && k * ping + delay <= now ==> AnsweredPing(events, ping, delay, k)
  }

  lemma {:induction false} DeadlineBehindPong(idle: int, events: seq<Event>, now: int, i: nat)
    requires Ordered(events, now) && i < |events| && events[i].Pong?
    ensures Deadline(idle, events) >= events[i].time + idle
    ensures (forall j :: i < j < |events| ==> events[j].DataFrame?) ==> Deadline(idle, events) == events[i].time + idle
  {
    if i < |events| - 1 && events[|events| - 1].DataFrame? {
      DeadlineBehindPong(idle, events[..|events| - 1], now, i);
    }
  }

  /** With an idle timeout, a pong moves the deadline to the idle timeout after it, and only a later
      pong moves it again; without one there is no deadline. */
  lemma DeadlineAfterPong(idle: int, events: seq<Event>, now: int, i: nat)
    requires Ordered(events, now) && i < |events| && events[i].Pong?
    requires forall j :: i < j < |events| ==> events[j].DataFrame?
    ensures ReadDeadline(idle, events) == if idle > 0 then Some(events[i].time + idle) else None
  {
    DeadlineBehindPong(idle, events, now, i);
  }

  lemma {:induction false} DeadlineAtLeastIdle(idle: int, events: seq<Event>, now: int)
    requires Ordered(events, now)
    ensures Deadline(idle, events) >= idle
  {
    if events != [] {
      DeadlineAtLeastIdle(idle, events[..|events| - 1], now);
    }
  }

  lemma LastAnsweredPing(ping: int, delay: int, t: int) returns (k: nat)
    requires ping > 0 && delay >= 0 && t > ping + delay
    ensures 1 <= k <= t && k * ping + delay < t <= (k + 1) * ping + delay
  {
    k := (t - delay - 1) / ping;
    assert (k + 1) * ping == k * ping + ping;
    assert k <= k * ping;
  }

  /** At time t, with n events before it, the deadline is still ahead. */
  lemma DeadlineAhead(ping: int, delay: int, idle: int, events: seq<Event>, now: int, n: nat, t: int)
    requires ping > 0 && delay >= 0 && ping + delay < idle
    requires Ordered(events, now) && Answered(events, ping, delay, now)
    requires n <= |events| && t <= now && (forall i :: n <= i < |events| ==> t <= events[i].time)
    ensures t < Deadline(idle, events[..n])
  {
    if t <= ping + delay {
      DeadlineAtLeastIdle(idle, events[..n], now);
    } else {
      var k := LastAnsweredPing(ping, delay, t);
      assert AnsweredPing(events, ping, delay, k);
      var i :| 0 <= i < |events| && events[i].Pong? && k * ping <= events[i].time <= k * ping + delay;
      assert events[..n][i] == events[i];
      DeadlineBehindPong(idle, events[..n], now, i);
      assert (k + 1) * ping == k * ping + ping;
    }
  }

  /** Answered pings keep the connection open. */
  lemma AnsweredNeverExpires(ping: int, delay: int, idle: int, events: seq<Event>, now: int)
    requires ping > 0 && delay >= 0 && (idle <= 0 || ping + delay < idle) && now >= 0
    requires Ordered(events, now) && Answered(events, ping, delay, now)
    ensures NeverExpires(idle, events, now)
  {
    forall n | 0 <= n <= |events|
      ensures InTime(if n < |events| then events[n].time else now, ReadDeadline(idle, events[..n]))
    {
      if idle > 0 {
        DeadlineAhead(ping, delay, idle, events, now, n, if n < |events| then events[n].time else now);
      }
    }
  }

  /** Pongs within the delay, and yet the deadline passes between two of them. */
  lemma SlowPongsExpire(ping: int, delay: int, idle: int)
    requires ping > 0 && delay >= 0 && 0 < idle <= ping + delay
    ensures var events, now := [Pong(ping), Pong(2 * ping + delay)], 2 * ping + delay;
      Ordered(events, now) && Answered(events, ping, delay, now) && !NeverExpires(idle, events, now)
  {
    var events, now := [Pong(ping), Pong(2 * ping + delay)], 2 * ping + delay;
    forall k: nat | 1 <= k <= now && k * ping + delay <= now
      ensures AnsweredPing(events, ping, delay, k)
    {
      assert k >= 3 ==> k * ping >= 3 * ping;
      assert events[k - 1].Pong?;
    }
    assert events[..1] == [Pong(ping)];
    assert !InTime(events[1].time, ReadDeadline(idle, events[..1]));
  }

  /** With an accepted configuration that sends pings, a peer that answers each within delay is
      never cut off, whatever else it sends, exactly when there is no idle timeout or the ping
      interval and the delay together are below it. */
  lemma KeepaliveIsExact(cfg: Config, delay: int)
    requires CheckConfig(cfg) == None && cfg.ping > 0 && delay >= 0
    ensures cfg.idle == 0 || cfg.ping + delay < cfg.idle <==>
      forall events, now :: now >= 0 && Ordered(events, now) && Answered(events, cfg.ping, delay, now)
        ==> NeverExpires(cfg.idle, events, now)
  {
    if cfg.idle == 0 || cfg.ping + delay < cfg.idle {
      forall events, now | now >= 0 && Ordered(events, now) && Answered(events, cfg.ping, delay, now)
        ensures NeverExpires(cfg.idle, events, now)
      {
        AnsweredNeverExpires(cfg.ping, delay, cfg.idle, events, now);
      }
    } else {
      SlowPongsExpire(cfg.ping, delay, cfg.idle);
    }
  }

  /** An accepted configuration that sends no pings sets no deadline. */
  lemma NoPingsNoDeadline(cfg: Config, events: seq<Event>, now: int)
    requires CheckConfig(cfg) == None && cfg.ping <= 0
    ensures NeverExpires(cfg.idle, events, now)
  {
  }

  lemma {:induction false} DataMovesNothing(idle: int, events: seq<Event>)
    requires forall i :: 0 <= i < |events| ==> events[i].DataFrame?
    ensures Deadline(idle, events) == idle
  {
    if events != [] {
      DataMovesNothing(idle, events[..|events| - 1]);
    }
  }

  /** Only pongs count as activity: data frames leave the deadline where it was, so a peer that
      sends data but no pong is cut off exactly when there is an idle timeout and
      it has passed. */
  lemma DataDoesNotExtend(idle: int, events: seq<Event>, now: int)
    requires Ordered(events, now) && forall i :: 0 <= i < |events| ==> events[i].DataFrame?
    ensures ReadDeadline(idle, events) == if idle > 0 then Some(idle) else None
    ensures NeverExpires(idle, events, now) <==> idle <= 0 || now < idle
  {
    DataMovesNothing(idle, events);
    assert events[..|events|] == events;
    forall n | 0 <= n <= |events|
      ensures Deadline(idle, events[..n]) == idle
    {
      DataMovesNothing(idle, events[..n]);
    }
    if now >= idle > 0 {
      assert !InTime(now, ReadDeadline(idle, events[..|events|]));
    }
  }
}
