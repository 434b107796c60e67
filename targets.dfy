/**
 * Start-up of `main`: the default gateway, the sites given as arguments filtered by
 * whether they resolve (with google.com as the fallback), and one pinger per target,
 * the gateway first. DNS, gateway discovery and pinger construction are oracles:
 * `gateway` is what gateway discovery returned, `resolves` says whether
 * net.LookupHost succeeds on a name, `canPing` whether ping.NewPinger accepts it.
 */
module Targets {
  import opened Wrappers
  import opened Probes

  const FallbackSite: string := "google.com"

  /** Why the program exits with status 1 during start-up. */
  datatype SetupError =
    | TerminalInitFailed
    | GatewayUnresolvable
    | NoValidSites
    | PingerSetupFailed(address: string)

  /** The start-up line printed for argument number `number` (counted from 1). */
  datatype SiteReport = SiteReport(number: nat, site: string, resolved: bool)

  /** What the live view and the final report work from: `names[i]` labels `pingers[i]`. */
  datatype Session = Session(names: seq<string>, pingers: seq<Pinger>)

  function GatewayLabel(gateway: string): string
  {
    "Default Gateway (" + gateway + ")"
  }

  /** Pinger i probes the address its label names: the gateway first, then each site. */
  predicate Aligned(s: Session)
  {
    |s.names| == |s.pingers| >= 1 &&
    s.names[0] == GatewayLabel(s.pingers[0].address) &&
    forall i :: 1 <= i < |s.names| ==> s.names[i] == s.pingers[i].address
  }

  /** The sites that resolve, in argument order. */
  function Filter(sites: seq<string>, resolves: string -> bool): seq<string>
  {
    if sites == [] then []
    else (if resolves(sites[0]) then [sites[0]] else []) + Filter(sites[1..], resolves)
  }

  /** Filtering keeps order: filtering a + b is filtering a, then b. */
  lemma {:induction false} FilterAppend(a: seq<string>, b: seq<string>, resolves: string -> bool)
    ensures Filter(a + b, resolves) == Filter(a, resolves) + Filter(b, resolves)
  {
    if a == [] {
      assert a + b == b;
    } else {
      assert (a + b)[0] == a[0] && (a + b)[1..] == a[1..] + b;
      FilterAppend(a[1..], b, resolves);
    }
  }

  /**
   * A site occurs in the filtered list as often as among the arguments when it resolves,
   * and not at all when it does not: nothing is added or duplicated.
   */
  lemma {:induction false} FilterCount(sites: seq<string>, resolves: string -> bool, site: string)
    ensures multiset(Filter(sites, resolves))[site] == if resolves(site) then multiset(sites)[site] else 0
  {
    if sites != [] {
      FilterCount(sites[1..], resolves, site);
      assert sites == [sites[0]] + sites[1..];
    }
  }

  /** The list of sites to ping: the ones that resolve, else google.com if it resolves. */
  function Selection(sites: seq<string>, resolves: string -> bool): Result<seq<string>, SetupError>
  {
    var valid := Filter(sites, resolves);
    if |valid| > 0 then Ok(valid)
    else if resolves(FallbackSite) then Ok([FallbackSite])
    else Err(NoValidSites)
  }

  /**
   * The argument loop and its fallback: looks every site up in order, reports each by
   * number, and keeps the ones that resolve.
   */
  method SelectSites(sites: seq<string>, resolves: string -> bool)
    returns (r: Result<seq<string>, SetupError>, log: seq<SiteReport>)
    ensures r == Selection(sites, resolves)
    ensures |log| == |sites|
    ensures forall i :: 0 <= i < |sites| ==> log[i] == SiteReport(i + 1, sites[i], resolves(sites[i]))
  {
    var valid: seq<string> := [];
    log := [];
    var i := 0;
    while i < |sites|
      invariant i <= |sites|
      invariant valid == Filter(sites[..i], resolves)
      invariant |log| == i
      invariant forall j :: 0 <= j < i ==> log[j] == SiteReport(j + 1, sites[j], resolves(sites[j]))
    {
      var site := sites[i];
      FilterAppend(sites[..i], [site], resolves);
      assert sites[..i + 1] == sites[..i] + [site];
      if !resolves(site) {
        log := log + [SiteReport(i + 1, site, false)];
      } else {
        log := log + [SiteReport(i + 1, site, true)];
        valid := valid + [site];
      }
      i := i + 1;
    }
    assert sites[..i] == sites;
    if |valid| > 0 {
      r := Ok(valid);
    } else {
      if !resolves(FallbackSite) {
        r := Err(NoValidSites);
        return;
      }
      r := Ok([FallbackSite]);
    }
  }

  /** How many of `addresses`, from the front, get a pinger before the first one that fails. */
  function Startable(addresses: seq<string>, canPing: string -> bool): (n: nat)
    ensures n <= |addresses|
    ensures forall i :: 0 <= i < n ==> canPing(addresses[i])
    ensures n < |addresses| ==> !canPing(addresses[n])
  {
    if addresses == [] || !canPing(addresses[0]) then 0
    else 1 + Startable(addresses[1..], canPing)
  }

  /** One pinger per address, in order. */
  function PingersFor(addresses: seq<string>): (ps: seq<Pinger>)
    ensures |ps| == |addresses|
    ensures forall i :: 0 <= i < |addresses| ==> ps[i].address == addresses[i]
  {
    if addresses == [] then [] else [Pinger(addresses[0])] + PingersFor(addresses[1..])
  }

  /**
   * The pinger loop: the gateway's pinger first, then one per site in order; the first
   * construction failure ends start-up. `started` is every pinger running at that point.
   */
  method StartPingers(gateway: string, valid: seq<string>, canPing: string -> bool)
    returns (r: Result<seq<Pinger>, SetupError>, started: seq<Pinger>)
    ensures var addresses := [gateway] + valid;
      var n := Startable(addresses, canPing);
      started == PingersFor(addresses[..n]) &&
      r == if n == |addresses| then Ok(started) else Err(PingerSetupFailed(addresses[n]))
  {
    ghost var addresses := [gateway] + valid;
    if !canPing(gateway) {
      r, started := Err(PingerSetupFailed(gateway)), [];
      return;
    }
    var pingers := [Pinger(gateway)];
    var i := 0;
    while i < |valid|
      invariant i <= |valid|
      invariant forall j :: 0 <= j <= i ==> canPing(addresses[j])
      invariant pingers == PingersFor(addresses[..i + 1])
    {
      var site := valid[i];
      if !canPing(site) {
        StartableFrom(addresses, canPing, i + 1);
        r, started := Err(PingerSetupFailed(site)), pingers;
        return;
      }
      PingersForSnoc(addresses[..i + 2]);
      assert addresses[..i + 2][..i + 1] == addresses[..i + 1];
      pingers := pingers + [Pinger(site)];
      i := i + 1;
    }
    StartableFrom(addresses, canPing, |addresses|);
    assert addresses[..i + 1] == addresses;
    r, started := Ok(pingers), pingers;
  }

  /** Startable stops at the first address that fails, or runs to the end. */
  lemma {:induction false} StartableFrom(addresses: seq<string>, canPing: string -> bool, n: nat)
    requires n <= |addresses|
    requires forall i :: 0 <= i < n ==> canPing(addresses[i])
    requires n < |addresses| ==> !canPing(addresses[n])
    ensures Startable(addresses, canPing) == n
  {
    if n > 0 {
      StartableFrom(addresses[1..], canPing, n - 1);
    }
  }

  lemma {:induction false} PingersForSnoc(addresses: seq<string>)
    requires |addresses| > 0
    ensures PingersFor(addresses) == PingersFor(addresses[..|addresses| - 1]) + [Pinger(addresses[|addresses| - 1])]
  {
    if |addresses| > 1 {
      PingersForSnoc(addresses[1..]);
      assert addresses[1..][..|addresses| - 2] == addresses[..|addresses| - 1][1..];
    }
  }

  /**
   * The outcome of start-up: terminal initialisation, gateway discovery, site
   * selection, then the pingers, each failure ending the program with status 1.
   */
  function SetupResult(terminalOk: bool, gateway: Option<string>, sites: seq<string>,
                       resolves: string -> bool, canPing: string -> bool): Result<Session, SetupError>
  {
    if !terminalOk then Err(TerminalInitFailed)
    else if gateway.None? then Err(GatewayUnresolvable)
    else match Selection(sites, resolves)
      case Err(e) => Err(e)
      case Ok(valid) =>
        var addresses := [gateway.value] + valid;
        var n := Startable(addresses, canPing);
        if n < |addresses| then Err(PingerSetupFailed(addresses[n]))
        else Ok(Session([GatewayLabel(gateway.value)] + valid, PingersFor(addresses)))
  }

  /** The pingers running when start-up ends, whatever its outcome. */
  function SetupStarted(terminalOk: bool, gateway: Option<string>, sites: seq<string>,
                        resolves: string -> bool, canPing: string -> bool): seq<Pinger>
  {
    if !terminalOk || gateway.None? then []
    else match Selection(sites, resolves)
      case Err(_) => []
      case Ok(valid) =>
        var addresses := [gateway.value] + valid;
        PingersFor(addresses[..Startable(addresses, canPing)])
  }

  /** main up to the event loop. */
  method Setup(terminalOk: bool, gateway: Option<string>, sites: seq<string>,
               resolves: string -> bool, canPing: string -> bool)
    returns (r: Result<Session, SetupError>, log: seq<SiteReport>, started: seq<Pinger>)
    ensures r == SetupResult(terminalOk, gateway, sites, resolves, canPing)
    ensures started == SetupStarted(terminalOk, gateway, sites, resolves, canPing)
    ensures terminalOk && gateway.Some? ==>
      |log| == |sites| && forall i :: 0 <= i < |sites| ==> log[i] == SiteReport(i + 1, sites[i], resolves(sites[i]))
  {
    log, started := [], [];
    if !terminalOk {
      r := Err(TerminalInitFailed);
      return;
    }
    if gateway.None? {
      r := Err(GatewayUnresolvable);
      return;
    }
    var dg := gateway.value;
    var selection;
    selection, log := SelectSites(sites, resolves);
    if selection.Err? {
      r := Err(selection.error);
      return;
    }
    var valid := selection.value;
    var pingers;
    pingers, started := StartPingers(dg, valid, canPing);
    if pingers.Err? {
      r := Err(pingers.error);
      return;
    }
    ghost var addresses := [dg] + valid;
    assert addresses[..|addresses|] == addresses;
    r := Ok(Session([GatewayLabel(dg)] + valid, pingers.value));
  }

  /**
   * Start-up succeeds exactly when the terminal starts, the gateway is found, some
   * site (or the fallback) resolves and every target gets a pinger; the session then
   * labels the gateway's pinger first and one pinger per selected site after it, in order.
   */
  lemma SetupOk(terminalOk: bool, gateway: Option<string>, sites: seq<string>,
                resolves: string -> bool, canPing: string -> bool)
    ensures SetupResult(terminalOk, gateway, sites, resolves, canPing).Ok? <==>
      terminalOk && gateway.Some? && Selection(sites, resolves).Ok? &&
      forall a :: a in [gateway.value] + Selection(sites, resolves).value ==> canPing(a)
    ensures SetupResult(terminalOk, gateway, sites, resolves, canPing).Ok? ==>
      var s := SetupResult(terminalOk, gateway, sites, resolves, canPing).value;
      var valid := Selection(sites, resolves).value;
      Aligned(s) &&
      s.names == [GatewayLabel(gateway.value)] + valid &&
      |s.pingers| == 1 + |valid| &&
      s.pingers[0].address == gateway.value &&
      s.pingers == SetupStarted(terminalOk, gateway, sites, resolves, canPing)
  {
    if terminalOk && gateway.Some? && Selection(sites, resolves).Ok? {
      var addresses := [gateway.value] + Selection(sites, resolves).value;
      var n := Startable(addresses, canPing);
      if n < |addresses| {
        assert addresses[n] in addresses && !canPing(addresses[n]);
      } else {
        assert addresses[..n] == addresses;
        forall a | a in addresses
          ensures canPing(a)
        {
          var i :| 0 <= i < |addresses| && addresses[i] == a;
        }
      }
    }
  }

  /**
   * Start-up fails before any pinger exists unless it is a pinger that failed; then the
   * pingers already running are those of the targets before the failing one, in order.
   */
  lemma SetupFailure(terminalOk: bool, gateway: Option<string>, sites: seq<string>,
                     resolves: string -> bool, canPing: string -> bool)
    requires SetupResult(terminalOk, gateway, sites, resolves, canPing).Err?
    ensures var e := SetupResult(terminalOk, gateway, sites, resolves, canPing).error;
      var started := SetupStarted(terminalOk, gateway, sites, resolves, canPing);
      (!e.PingerSetupFailed? ==> started == []) &&
      (e.PingerSetupFailed? ==>
        var addresses := [gateway.value] + Selection(sites, resolves).value;
        |started| < |addresses| &&
        e.address == addresses[|started|] && !canPing(e.address) &&
        forall i :: 0 <= i < |started| ==> started[i].address == addresses[i] && canPing(addresses[i]))
  {
  }

  /**
   * When some argument resolves, the sites to ping are exactly the ones that resolve, in
   * argument order; when none does it is google.com alone, and start-up aborts if that
   * does not resolve either.
   */
  lemma SelectionSpec(sites: seq<string>, resolves: string -> bool)
    ensures (exists i :: 0 <= i < |sites| && resolves(sites[i])) ==>
      Filter(sites, resolves) != [] && Selection(sites, resolves) == Ok(Filter(sites, resolves))
    ensures (forall i :: 0 <= i < |sites| ==> !resolves(sites[i])) ==>
      Selection(sites, resolves) == if resolves(FallbackSite) then Ok([FallbackSite]) else Err(NoValidSites)
  {
    if Filter(sites, resolves) == [] {
      forall i | 0 <= i < |sites|
        ensures !resolves(sites[i])
      {
        FilterCount(sites, resolves, sites[i]);
        assert sites[i] in multiset(sites);
      }
    } else {
      var f := Filter(sites, resolves);
      FilterCount(sites, resolves, f[0]);
      assert f[0] in multiset(f);
      var i :| 0 <= i < |sites| && sites[i] == f[0];
    }
  }

  /**
   * As shipped the program never parses its arguments, so the site list is empty and
   * it pings the gateway and google.com, labelled in that order.
   */
  lemma ShippedTargets(gateway: string, resolves: string -> bool, canPing: string -> bool)
    requires resolves(FallbackSite) && canPing(gateway) && canPing(FallbackSite)
    ensures SetupResult(true, Some(gateway), [], resolves, canPing) ==
      Ok(Session([GatewayLabel(gateway), FallbackSite], [Pinger(gateway), Pinger(FallbackSite)]))
  {
    var addresses := [gateway, FallbackSite];
    assert Startable(addresses, canPing) == 2 by {
      StartableFrom(addresses, canPing, 2);
    }
    assert Selection([], resolves) == Ok([FallbackSite]);
    assert PingersFor(addresses) == [Pinger(gateway), Pinger(FallbackSite)];
    assert [gateway] + [FallbackSite] == addresses;
    assert [GatewayLabel(gateway)] + [FallbackSite] == [GatewayLabel(gateway), FallbackSite];
  }
}
