// The abuse guard: a fixed-window limit on upgrade attempts per client, a cap on all active
// connections and a cap per client, over two maps. pkg/bridge and pkg/grpctunnel hold the
// same code.
module AbuseGuard {
  import opened Sequences

  /** One minute in nanoseconds, the unit of every time below. */
  const WINDOW: int := 60_000_000_000

  /** A limit of 0 or less is off. */
  datatype Config = Config(maxActive: int, maxPerClient: int, maxUpgrades: int)

  /** Times count from the zero time, so a window that was never stored starts at 0. */
  datatype Window = Window(startedAt: int, count: int)

  const NO_WINDOW: Window := Window(0, 0)

  datatype Verdict = Granted | RateExceeded | ActiveCapExceeded | ClientCapExceeded

  datatype Guard = Guard(active: int, clients: map<string, int>, windows: map<string, Window>)

  const EMPTY: Guard := Guard(0, map[], map[])

  /** The key of a request: the host of its remote address, or the address itself. trim and
      splitHost stand for strings.TrimSpace and net.SplitHostPort. */
  function ClientKey(remote: Option<string>, trim: string -> string, splitHost: string -> Option<string>): (key: string)
    ensures key != ""
  {
    var derived :=
      if remote == None || trim(remote.value) == "" then ""
      else match splitHost(trim(remote.value)) case Some(host) => trim(host) case None => trim(remote.value);
    if derived == "" then "unknown" else derived
  }

  /** Clients are told apart by exactly their hosts: two addresses that split into hosts have the
      same key if and only if the hosts are the same, whatever the ports. */
  lemma KeyIsHost(r1: string, r2: string, trim: string -> string, splitHost: string -> Option<string>)
    requires trim(r1) != "" && splitHost(trim(r1)).Some? && trim(splitHost(trim(r1)).value) != ""
    requires trim(r2) != "" && splitHost(trim(r2)).Some? && trim(splitHost(trim(r2)).value) != ""
    ensures ClientKey(Some(r1), trim, splitHost) == ClientKey(Some(r2), trim, splitHost) <==>
      trim(splitHost(trim(r1)).value) == trim(splitHost(trim(r2)).value)
  {
  }

  /** An address that does not split is its own key; a request without an address, or with a blank
      host, has the key of all such requests. */
  lemma KeyWithoutHost(remote: Option<string>, trim: string -> string, splitHost: string -> Option<string>)
    ensures var key, address := ClientKey(remote, trim, splitHost), if remote.Some? then trim(remote.value) else "";
      && (address == "" ==> key == "unknown")
      && (address != "" && splitHost(address) == None ==> key == address)
      && (address != "" && splitHost(address).Some? && trim(splitHost(address).value) == "" ==> key == "unknown")
  {
  }

  // ---- Rate windows ----

  function WindowOf(windows: map<string, Window>, key: string): Window {
    if key in windows then windows[key] else NO_WINDOW
  }

  /** The window that counts an attempt made now. */
  function Roll(w: Window, now: int): Window {
    if w.startedAt == 0 || now - w.startedAt >= WINDOW then Window(now, 0) else w
  }

  predicate RateAllows(cfg: Config, w: Window, now: int) {
    cfg.maxUpgrades <= 0 || Roll(w, now).count < cfg.maxUpgrades
  }

  /** The client's window after an attempt; a refused attempt leaves it alone. */
  function Count(cfg: Config, w: Window, now: int): Window {
    if cfg.maxUpgrades <= 0 || !RateAllows(cfg, w, now) then w
    else Window(Roll(w, now).startedAt, Roll(w, now).count + 1)
  }

  // ---- Reserving and clearing ----

  function ClientCount(g: Guard, key: string): int {
    if key in g.clients then g.clients[key] else 0
  }

  function Judge(cfg: Config, g: Guard, key: string, now: int): Verdict {
    if !RateAllows(cfg, WindowOf(g.windows, key), now) then RateExceeded
    else if 0 < cfg.maxActive <= g.active then ActiveCapExceeded
    else if 0 < cfg.maxPerClient <= ClientCount(g, key) then ClientCapExceeded
    else Granted
  }

  function Reserve(cfg: Config, g: Guard, key: string, now: int): Guard {
    var verdict := Judge(cfg, g, key, now);
    var windows := if cfg.maxUpgrades <= 0 || verdict == RateExceeded then g.windows
                   else g.windows[key := Count(cfg, WindowOf(g.windows, key), now)];
    if verdict == Granted then Guard(g.active + 1, g.clients[key := ClientCount(g, key) + 1], windows)
    else g.(windows := windows)
  }

  function Clear(g: Guard, key: string): Guard {
    Guard(if g.active > 0 then g.active - 1 else g.active,
          if ClientCount(g, key) <= 1 then g.clients - {key} else g.clients[key := ClientCount(g, key) - 1],
          g.windows)
  }

  /** The guard as it is stored; both methods run under its lock. */
  class GuardStore {
    const config: Config
    var active: int
    var clients: map<string, int>
    var windows: map<string, Window>

    function Value(): Guard
      reads this
    {
      Guard(active, clients, windows)
    }

    constructor (config: Config)
      ensures this.config == config && Value() == EMPTY
    {
      this.config := config;
      active, clients, windows := 0, map[], map[];
    }

    method ReserveConnection(key: string, now: int) returns (verdict: Verdict)
      modifies this
      ensures verdict == Judge(config, old(Value()), key, now)
      ensures Value() == Reserve(config, old(Value()), key, now)
    {
      if config.maxUpgrades > 0 {
        var window := if key in windows then windows[key] else NO_WINDOW;
        if window.startedAt == 0 || now - window.startedAt >= WINDOW {
          window := Window(now, 0);
        }
        if window.count >= config.maxUpgrades {
          return RateExceeded;
        }
        window := window.(count := window.count + 1);
        windows := windows[key := window];
      }
      if config.maxActive > 0 && active >= config.maxActive {
        return ActiveCapExceeded;
      }
      var held := if key in clients then clients[key] else 0;
      if config.maxPerClient > 0 && held >= config.maxPerClient {
        return ClientCapExceeded;
      }
      active := active + 1;
      clients := clients[key := held + 1];
      return Granted;
    }

    method ClearConnection(key: string)
      modifies this
      ensures Value() == Clear(old(Value()), key)
    {
      if active > 0 {
        active := active - 1;
      }
      var held := if key in clients then clients[key] else 0;
      if held <= 1 {
        clients := clients - {key};
        return;
      }
      clients := clients[key := held - 1];
    }
  }

  // ---- Conservation ----

  /** The guard counts exactly the held slots: held has one occurrence of a client's key for
      each of its connections in flight. */
  ghost predicate Accounts(cfg: Config, g: Guard, held: multiset<string>) {
    && g.active == |held|
    && (forall key :: key in g.clients <==> key in held)
    && (forall key :: key in g.clients ==> g.clients[key] == held[key])
    && (cfg.maxActive > 0 ==> g.active <= cfg.maxActive)
    && (cfg.maxPerClient > 0 ==> forall key :: key in g.clients ==> g.clients[key] <= cfg.maxPerClient)
  }

  /** A reservation is granted exactly when the rate allows it and both caps still hold with
      one more connection; then it adds one slot, else it adds none. */
  lemma ReserveKeepsAccounts(cfg: Config, g: Guard, held: multiset<string>, key: string, now: int)
    requires Accounts(cfg, g, held)
    ensures Judge(cfg, g, key, now) == Granted <==>
      && RateAllows(cfg, WindowOf(g.windows, key), now)
      && (cfg.maxActive > 0 ==> |held| + 1 <= cfg.maxActive)
      && (cfg.maxPerClient > 0 ==> held[key] + 1 <= cfg.maxPerClient)
    ensures Accounts(cfg, Reserve(cfg, g, key, now),
      if Judge(cfg, g, key, now) == Granted then held + multiset{key} else held)
  {
    assert ClientCount(g, key) == held[key];
  }

  /** What each refusal means; the rate is checked first and the client's own cap last. */
  lemma RefusalsName(cfg: Config, g: Guard, held: multiset<string>, key: string, now: int)
    requires Accounts(cfg, g, held)
    ensures var verdict, rate := Judge(cfg, g, key, now), RateAllows(cfg, WindowOf(g.windows, key), now);
      && (verdict == RateExceeded <==> !rate)
      && (verdict == ActiveCapExceeded <==> rate && cfg.maxActive > 0 && |held| == cfg.maxActive)
      && (verdict == ClientCapExceeded <==> rate && !(cfg.maxActive > 0 && |held| == cfg.maxActive)
                                            && cfg.maxPerClient > 0 && held[key] == cfg.maxPerClient)
  {
    assert ClientCount(g, key) == held[key];
  }

  /** Clearing a held slot removes exactly it; neither saturating branch is needed. */
  lemma ClearKeepsAccounts(cfg: Config, g: Guard, held: multiset<string>, key: string)
    requires Accounts(cfg, g, held) && key in held
    ensures g.active > 0 && key in g.clients && g.clients[key] >= 1
    ensures Clear(g, key).active == g.active - 1 && ClientCount(Clear(g, key), key) == g.clients[key] - 1
    ensures Accounts(cfg, Clear(g, key), held - multiset{key})
  {
    assert held[key] >= 1;
  }

  /** Clearing undoes a granted reservation, apart from the counted attempt. */
  lemma ClearUndoesReserve(cfg: Config, g: Guard, held: multiset<string>, key: string, now: int)
    requires Accounts(cfg, g, held) && Judge(cfg, g, key, now) == Granted
    ensures Clear(Reserve(cfg, g, key, now), key) == g.(windows := Reserve(cfg, g, key, now).windows)
  {
    var g' := Reserve(cfg, g, key, now);
    assert key !in g.clients ==> g'.clients - {key} == g.clients;
    assert key in g.clients ==> g'.clients[key := g.clients[key]] == g.clients;
  }

  /** The release derives the client's key again. It undoes the reservation exactly if the key has
      not changed since: under another key the client keeps the slot for ever. */
  lemma ReleaseNeedsSameKey(cfg: Config, g: Guard, held: multiset<string>, key: string, now: int, later: string)
    requires Accounts(cfg, g, held) && Judge(cfg, g, key, now) == Granted
    ensures var reserved := Reserve(cfg, g, key, now);
      && (Clear(reserved, later) == g.(windows := reserved.windows) <==> later == key)
      && (later != key ==> ClientCount(Clear(reserved, later), key) == held[key] + 1)
  {
    var reserved := Reserve(cfg, g, key, now);
    ReserveKeepsAccounts(cfg, g, held, key, now);
    if later == key {
      ClearUndoesReserve(cfg, g, held, key, now);
    } else {
      assert ClientCount(g, key) == held[key] && ClientCount(reserved, key) == held[key] + 1;
      assert ClientCount(Clear(reserved, later), key) == ClientCount(reserved, key);
    }
  }

  /** A release that finds nothing to release saturates: no count goes below 0 and no entry appears. */
  lemma ReleaseSaturates(g: Guard, key: string)
    ensures g.active <= 0 ==> Clear(g, key).active == g.active
    ensures key !in g.clients ==> Clear(g, key).clients == g.clients
    ensures Clear(g, key).windows == g.windows
    ensures forall other :: other != key ==> ClientCount(Clear(g, key), other) == ClientCount(g, other)
  {
    assert key !in g.clients ==> g.clients - {key} == g.clients;
  }

  /** The sum of the counts of all clients. */
  ghost function TotalHeld(clients: map<string, int>): int {
    if clients == map[] then 0
    else var key :| key in clients; clients[key] + TotalHeld(clients - {key})
  }

  /** The per-client counts add up to the active count. */
  lemma {:induction false} CountsAddUp(clients: map<string, int>, held: multiset<string>)
    requires forall key :: key in clients <==> key in held
    requires forall key :: key in clients ==> clients[key] == held[key]
    ensures TotalHeld(clients) == |held|
    decreases |clients|
  {
    if clients == map[] {
      assert held == multiset{};
    } else {
      var key :| key in clients && TotalHeld(clients) == clients[key] + TotalHeld(clients - {key});
      var rest := held[key := 0];
      CountsAddUp(clients - {key}, rest);
      assert held == rest[key := held[key]];
    }
  }
}
