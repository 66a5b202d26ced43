/** The configuration a node runs: listeners, camouflage sites, and when a config is accepted at all. */
module NodeConfig {
  import opened Wrappers
  import opened SiteChecks

  datatype Transport = Raw | Ws | TlsSimple | NginxSni

  /** The fields no decision depends on are carried in `rest`. */
  datatype Listener = Listener(
    ruleId: int,
    port: nat,
    transport: Transport,
    sni: Option<string>,
    camouflageRequired: bool,
    sendProxyProtocol: bool,
    targets: seq<string>,
    rest: nat)

  datatype Site = Site(siteId: string, sni: string, enabled: bool, tlsPort: nat, certificate: Certificate, rest: nat)

  datatype Config = Config(listeners: seq<Listener>, sites: seq<Site>)

  /** The digest sorts listeners and sites first; here it is the sorted content itself, so it has no collisions. */
  datatype Fingerprint = Fingerprint(listeners: multiset<Listener>, sites: multiset<Site>)

  function FingerprintOf(c: Config): Fingerprint {
    Fingerprint(multiset(c.listeners), multiset(c.sites))
  }

  predicate IsSpace(c: char) {
    var n := c as int;
    || 9 <= n <= 13 || n == 0x20 || n == 0x85 || n == 0xA0 || n == 0x1680 || 0x2000 <= n <= 0x200A
    || n == 0x2028 || n == 0x2029 || n == 0x202F || n == 0x205F || n == 0x3000
  }

  /** The white space of Unicode, by code point. */
  lemma SpaceIff(c: char)
    ensures IsSpace(c) <==>
            c as int in {9, 10, 11, 12, 13, 32, 133, 160, 5760, 8192, 8193, 8194, 8195, 8196, 8197, 8198, 8199, 8200, 8201, 8202,
                         8232, 8233, 8239, 8287, 12288}
  {
  }

  predicate Blank(s: string) {
    forall i | 0 <= i < |s| :: IsSpace(s[i])
  }

  /** Leading and trailing white space cut off. */
  function Trim(s: string): (r: string)
    decreases |s|
  {
    if s != "" && IsSpace(s[0]) then Trim(s[1..])
    else if s != "" && IsSpace(s[|s| - 1]) then Trim(s[..|s| - 1])
    else s
  }

  /** A string is blank exactly if nothing is left of it after trimming. */
  lemma {:induction false} BlankIff(s: string)
    ensures Blank(s) <==> Trim(s) == ""
    decreases |s|
  {
    if s != "" && IsSpace(s[0]) {
      BlankIff(s[1..]);
      assert s == [s[0]] + s[1..];
    } else if s != "" && IsSpace(s[|s| - 1]) {
      BlankIff(s[..|s| - 1]);
    }
  }

  /** What is refused of a listener: port 0, no target, a target or required server name that is empty after trimming. */
  lemma ListenerRefusedIff(l: Listener)
    ensures !ListenerOk(l) <==>
            || l.port == 0 || l.targets == [] || (exists t :: t in l.targets && Trim(t) == "")
            || (l.transport.NginxSni? && (l.sni.None? || Trim(l.sni.value) == ""))
  {
    forall t ensures Blank(t) <==> Trim(t) == "" {
      BlankIff(t);
    }
  }

  predicate ListenerOk(l: Listener) {
    && l.port != 0
    && l.targets != [] && (forall t | t in l.targets :: !Blank(t))
    && (l.transport.NginxSni? ==> l.sni.Some? && !Blank(l.sni.value))
  }

  /** PROXY protocol exists only on the SNI transport, and all SNI routes of one port agree on it. */
  predicate ProxyModesOk(ls: seq<Listener>) {
    && (forall i | 0 <= i < |ls| :: ls[i].sendProxyProtocol ==> ls[i].transport.NginxSni?)
    && (forall i, j | 0 <= i < j < |ls| && ls[i].transport.NginxSni? && ls[j].transport.NginxSni? && ls[i].port == ls[j].port ::
          ls[i].sendProxyProtocol == ls[j].sendProxyProtocol)
  }

  predicate SiteOk(s: Site) {
    WellFormed(s.siteId, s.sni, s.tlsPort, s.certificate)
  }

  /** Each enabled site is well formed, and no two share an id or a server name. */
  predicate SitesOk(sites: seq<Site>) {
    (forall i | 0 <= i < |sites| :: sites[i].enabled ==> SiteOk(sites[i])) && DistinctSites(sites)
  }

  predicate DistinctSites(sites: seq<Site>) {
    forall i, j | 0 <= i < j < |sites| && sites[i].enabled && sites[j].enabled ::
      sites[i].siteId != sites[j].siteId && sites[i].sni != sites[j].sni
  }

  predicate ValidConfig(c: Config) {
    ProxyModesOk(c.listeners) && (forall l | l in c.listeners :: ListenerOk(l)) && SitesOk(c.sites)
  }

  /** The first pass: one mode per SNI port, remembered in a map. */
  method CheckProxyModes(ls: seq<Listener>) returns (ok: bool)
    ensures ok <==> ProxyModesOk(ls)
  {
    var modes: map<nat, bool> := map[];
    for i := 0 to |ls|
      invariant ProxyModesOk(ls[..i])
      invariant forall p | p in modes :: exists j | 0 <= j < i :: ls[j].transport.NginxSni? && ls[j].port == p
      invariant forall j | 0 <= j < i && ls[j].transport.NginxSni? :: ls[j].port in modes && modes[ls[j].port] == ls[j].sendProxyProtocol
    {
      var l := ls[i];
      if l.sendProxyProtocol && !l.transport.NginxSni? {
        return false;
      }
      if l.transport.NginxSni? {
        if l.port in modes && modes[l.port] != l.sendProxyProtocol {
          return false;
        }
        modes := modes[l.port := l.sendProxyProtocol];
      }
    }
    assert ls[..|ls|] == ls;
    return true;
  }

  function EnabledIds(sites: seq<Site>): set<string> {
    set i | 0 <= i < |sites| && sites[i].enabled :: sites[i].siteId
  }

  function EnabledSnis(sites: seq<Site>): set<string> {
    set i | 0 <= i < |sites| && sites[i].enabled :: sites[i].sni
  }

  lemma OneMoreSite(sites: seq<Site>, i: nat)
    requires i < |sites|
    ensures var before, s := sites[..i], sites[i];
            && (SitesOk(sites[..i + 1]) <==>
                  SitesOk(before) && (s.enabled ==> SiteOk(s) && s.siteId !in EnabledIds(before) && s.sni !in EnabledSnis(before)))
            && EnabledIds(sites[..i + 1]) == EnabledIds(before) + (if s.enabled then {s.siteId} else {})
            && EnabledSnis(sites[..i + 1]) == EnabledSnis(before) + (if s.enabled then {s.sni} else {})
  {
    assert sites[..i + 1] == sites[..i] + [sites[i]];
  }

  method CheckSites(sites: seq<Site>) returns (ok: bool)
    ensures ok <==> SitesOk(sites)
  {
    var ids: set<string>, snis: set<string> := {}, {};
    for i := 0 to |sites|
      invariant SitesOk(sites[..i])
      invariant ids == EnabledIds(sites[..i]) && snis == EnabledSnis(sites[..i])
    {
      var site := sites[i];
      OneMoreSite(sites, i);
      if site.enabled {
        if !SiteOk(site) || site.siteId in ids || site.sni in snis {
          RefusedEarly(sites, i + 1);
          return false;
        }
        ids, snis := ids + {site.siteId}, snis + {site.sni};
      }
    }
    assert sites[..|sites|] == sites;
    return true;
  }

  lemma RefusedEarly(sites: seq<Site>, n: nat)
    requires n <= |sites| && !SitesOk(sites[..n])
    ensures !SitesOk(sites)
  {
  }

  /** Accepts exactly the valid configs. */
  method ValidateConfig(c: Config) returns (ok: bool)
    ensures ok <==> ValidConfig(c)
  {
    ok := CheckProxyModes(c.listeners);
    if !ok {
      return false;
    }
    for i := 0 to |c.listeners|
      invariant forall j | 0 <= j < i :: ListenerOk(c.listeners[j])
    {
      if !ListenerOk(c.listeners[i]) {
        return false;
      }
    }
    ok := CheckSites(c.sites);
  }

  /** What is accepted does not depend on the order, so equal fingerprints are accepted alike. */
  lemma ValidityFollowsFingerprint(a: Config, b: Config)
    requires FingerprintOf(a) == FingerprintOf(b) && ValidConfig(a)
    ensures ValidConfig(b)
  {
    ProxyModesFollow(a.listeners, b.listeners);
    SitesFollow(a.sites, b.sites);
    forall l | l in b.listeners ensures ListenerOk(l) {
      assert l in multiset(a.listeners);
    }
  }

  lemma ProxyModesFollow(a: seq<Listener>, b: seq<Listener>)
    requires multiset(a) == multiset(b) && ProxyModesOk(a)
    ensures ProxyModesOk(b)
  {
    forall i | 0 <= i < |b| ensures b[i] in a {
      assert b[i] in multiset(a);
    }
    forall i, j | 0 <= i < j < |b| && b[i].transport.NginxSni? && b[j].transport.NginxSni? && b[i].port == b[j].port
      ensures b[i].sendProxyProtocol == b[j].sendProxyProtocol
    {
      var x :| 0 <= x < |a| && a[x] == b[i];
      var y :| 0 <= y < |a| && a[y] == b[j];
    }
  }

  /** Two positions of one sequence make its multiset hold both elements. */
  lemma PairInMultiset<T>(s: seq<T>, i: nat, j: nat)
    requires i < j < |s|
    ensures multiset{s[i], s[j]} <= multiset(s)
  {
    assert s == s[..i] + [s[i]] + s[i + 1..j] + [s[j]] + s[j + 1..];
  }

  lemma PairFromMultiset<T>(s: seq<T>, x: T, y: T) returns (i: nat, j: nat)
    requires multiset{x, y} <= multiset(s)
    ensures i < |s| && j < |s| && i != j && s[i] == x && s[j] == y
  {
    assert multiset{x, y}[x] >= 1;
    assert x in multiset(s);
    i :| 0 <= i < |s| && s[i] == x;
    var others := s[..i] + s[i + 1..];
    assert s == s[..i] + [s[i]] + s[i + 1..];
    assert multiset(s) == multiset(others) + multiset{x};
    assert y in multiset(others) by {
      if x == y {
        assert multiset{x, y}[x] == 2;
      } else {
        assert multiset{x, y}[y] == 1;
      }
    }
    var p :| 0 <= p < |others| && others[p] == y;
    j := if p < i then p else p + 1;
  }

  lemma SitesFollow(a: seq<Site>, b: seq<Site>)
    requires multiset(a) == multiset(b) && SitesOk(a)
    ensures SitesOk(b)
  {
    forall i | 0 <= i < |b| && b[i].enabled ensures SiteOk(b[i]) {
      assert b[i] in multiset(a);
    }
    forall i, j | 0 <= i < j < |b| && b[i].enabled && b[j].enabled
      ensures b[i].siteId != b[j].siteId && b[i].sni != b[j].sni
    {
      PairInMultiset(b, i, j);
      var x, y := PairFromMultiset(a, b[i], b[j]);
      if x < y {
      } else {
        assert y < x;
      }
    }
  }
}
