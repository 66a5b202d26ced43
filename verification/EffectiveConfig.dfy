/**
 From a desired config to the config that may run: a listener whose camouflage site is not ready is withheld, and the
 old listeners of its rule stay as long as their own site is active.
 */
module EffectiveConfig {
  import opened Wrappers
  import opened NodeConfig
  import opened Traces

  /** The SNIs of required listeners. */
  function RequiredSnis(ls: seq<Listener>): set<string> {
    set i | 0 <= i < |ls| && ls[i].camouflageRequired && ls[i].sni.Some? :: ls[i].sni.value
  }

  predicate ActiveRequired(l: Listener, active: set<string>) {
    l.camouflageRequired && l.sni.Some? && l.sni.value in active
  }

  predicate Ready(l: Listener, enabled: set<string>, active: set<string>) {
    l.camouflageRequired ==> l.sni.Some? && l.sni.value in enabled && l.sni.value in active
  }

  /** The listeners of one rule that may be carried over from the previous config. */
  function Kept(ls: seq<Listener>, rule: int, active: set<string>): seq<Listener> {
    if ls == [] then []
    else if ls[0].ruleId == rule && ActiveRequired(ls[0], active) then [ls[0]] + Kept(ls[1..], rule, active)
    else Kept(ls[1..], rule, active)
  }

  /** The effective listeners for the desired ones in `ls`; rules in `done` have had their old listeners kept already. */
  function EffectiveListeners(ls: seq<Listener>, enabled: set<string>, previous: seq<Listener>,
                              active: set<string>, done: set<int>): seq<Listener> {
    if ls == [] then []
    else if Ready(ls[0], enabled, active) then [ls[0]] + EffectiveListeners(ls[1..], enabled, previous, active, done)
    else if ls[0].ruleId in done then EffectiveListeners(ls[1..], enabled, previous, active, done)
    else Kept(previous, ls[0].ruleId, active) + EffectiveListeners(ls[1..], enabled, previous, active, done + {ls[0].ruleId})
  }

  function PreviousListeners(previous: Option<Config>): seq<Listener> {
    if previous.Some? then previous.value.listeners else []
  }

  function PreviousSites(previous: Option<Config>): seq<Site> {
    if previous.Some? then previous.value.sites else []
  }

  /** The first enabled site for an SNI. */
  function SiteFor(sites: seq<Site>, sni: string): (s: Option<Site>)
    ensures s.Some? ==> s.value in sites && s.value.enabled && s.value.sni == sni
    ensures s.Some? <==> sni in EnabledSnis(sites)
  {
    if sites == [] then None
    else if sites[0].enabled && sites[0].sni == sni then Some(sites[0])
    else
      assert forall i | 1 <= i < |sites| :: sites[i] == sites[1..][i - 1];
      SiteFor(sites[1..], sni)
  }

  /** The old sites that kept listeners still need. */
  function ExtraSites(referenced: set<string>, enabled: set<string>, previous: seq<Site>): set<Site> {
    set sni | sni in referenced && sni !in enabled && SiteFor(previous, sni).Some? :: SiteFor(previous, sni).value
  }

  predicate Withheld(desired: Config, active: set<string>) {
    exists l :: l in desired.listeners && !Ready(l, EnabledSnis(desired.sites), active)
  }

  /** The result up to the order in which a hash set yields the extra sites. */
  ghost predicate IsEffective(desired: Config, previous: Option<Config>, active: set<string>, e: Config) {
    && e.listeners == EffectiveListeners(desired.listeners, EnabledSnis(desired.sites), PreviousListeners(previous), active, {})
    && desired.sites <= e.sites
    && multiset(e.sites[|desired.sites|..]) ==
         multiset(ExtraSites(RequiredSnis(e.listeners), EnabledSnis(desired.sites), PreviousSites(previous)))
  }

  /** The referenced SNIs are the active ones required by the effective listeners; nothing withheld is reported as served. */
  method BuildEffectiveConfig(desired: Config, previous: Option<Config>, active: set<string>)
    returns (effective: Config, referenced: set<string>, withheld: bool)
    ensures IsEffective(desired, previous, active, effective)
    ensures referenced == RequiredSnis(effective.listeners)
    ensures withheld <==> Withheld(desired, active)
  {
    var enabled := EnabledSnis(desired.sites);
    var listeners;
    listeners, withheld := BuildListeners(desired.listeners, enabled, PreviousListeners(previous), active);
    referenced := RequiredSnis(listeners);
    var sites := AddSites(desired.sites, referenced, PreviousSites(previous));
    effective := Config(listeners, sites);
  }

  method BuildListeners(ls: seq<Listener>, enabled: set<string>, prior: seq<Listener>, active: set<string>)
    returns (listeners: seq<Listener>, withheld: bool)
    ensures listeners == EffectiveListeners(ls, enabled, prior, active, {})
    ensures withheld <==> exists l :: l in ls && !Ready(l, enabled, active)
  {
    listeners, withheld := [], false;
    var preserved: set<int> := {};
    for i := 0 to |ls|
      invariant EffectiveListeners(ls, enabled, prior, active, {}) ==
                listeners + EffectiveListeners(ls[i..], enabled, prior, active, preserved)
      invariant withheld <==> exists j | 0 <= j < i :: !Ready(ls[j], enabled, active)
    {
      var l := ls[i];
      EffectiveStep(listeners, ls, i, enabled, prior, active, preserved);
      if Ready(l, enabled, active) {
        listeners := listeners + [l];
        continue;
      }
      withheld := true;
      if l.ruleId in preserved {
        continue;
      }
      preserved := preserved + {l.ruleId};
      listeners := listeners + Kept(prior, l.ruleId, active);
    }
  }

  /** One turn of the loop moves one listener from the rest to the result. */
  lemma EffectiveStep(acc: seq<Listener>, ls: seq<Listener>, i: nat, enabled: set<string>, prior: seq<Listener>,
                      active: set<string>, done: set<int>)
    requires i < |ls|
    ensures var l := ls[i];
            acc + EffectiveListeners(ls[i..], enabled, prior, active, done) ==
            if Ready(l, enabled, active) then acc + [l] + EffectiveListeners(ls[i + 1..], enabled, prior, active, done)
            else if l.ruleId in done then acc + EffectiveListeners(ls[i + 1..], enabled, prior, active, done)
            else acc + Kept(prior, l.ruleId, active) + EffectiveListeners(ls[i + 1..], enabled, prior, active, done + {l.ruleId})
  {
    assert ls[i..][1..] == ls[i + 1..];
  }

  /** For each referenced SNI without an enabled site, append the previous enabled one if there is one. */
  method AddSites(desired: seq<Site>, referenced: set<string>, previous: seq<Site>) returns (sites: seq<Site>)
    ensures desired <= sites
    ensures multiset(sites[|desired|..]) == multiset(ExtraSites(referenced, EnabledSnis(desired), previous))
  {
    sites := desired;
    var enabled := EnabledSnis(desired);
    var todo := referenced;
    assert ExtraSites(referenced - todo, enabled, previous) == {};
    while todo != {}
      invariant todo <= referenced && desired <= sites
      invariant EnabledSnis(sites) <= enabled + (referenced - todo)
      invariant enabled <= EnabledSnis(sites)
      invariant multiset(sites[|desired|..]) == multiset(ExtraSites(referenced - todo, enabled, previous))
      decreases |todo|
    {
      var sni :| sni in todo;
      ghost var before := ExtraSites(referenced - todo, enabled, previous);
      ExtraStep(referenced, todo, enabled, previous, sni);
      if sni !in EnabledSnis(sites) {
        var site := SiteFor(previous, sni);
        if site.Some? {
          SnisAppend(sites, site.value);
          assert (sites + [site.value])[|desired|..] == sites[|desired|..] + [site.value];
          sites := sites + [site.value];
        }
      }
      todo := todo - {sni};
    }
    assert referenced - {} == referenced;
  }

  lemma SnisAppend(sites: seq<Site>, s: Site)
    requires s.enabled
    ensures EnabledSnis(sites + [s]) == EnabledSnis(sites) + {s.sni}
  {
    assert (sites + [s])[|sites|] == s;
    forall i | 0 <= i < |sites| ensures (sites + [s])[i] == sites[i] {
    }
  }

  lemma ExtraStep(referenced: set<string>, todo: set<string>, enabled: set<string>, previous: seq<Site>, sni: string)
    requires todo <= referenced && sni in todo
    ensures var before := ExtraSites(referenced - todo, enabled, previous);
            var site := SiteFor(previous, sni);
            ExtraSites(referenced - (todo - {sni}), enabled, previous) ==
              (if sni !in enabled && site.Some? then before + {site.value} else before)
            && (site.Some? ==> site.value !in before)
  {
    assert referenced - (todo - {sni}) == referenced - todo + {sni};
  }

  // ---------------------------------------------------------------------------------------------------------
  // Safety and exactness.

  lemma {:induction false} KeptAreActive(ls: seq<Listener>, rule: int, active: set<string>)
    ensures forall l | l in Kept(ls, rule, active) :: l in ls && l.ruleId == rule && ActiveRequired(l, active)
  {
    if ls != [] {
      KeptAreActive(ls[1..], rule, active);
    }
  }

  lemma {:induction false} EffectiveAreServed(ls: seq<Listener>, enabled: set<string>, previous: seq<Listener>,
                                              active: set<string>, done: set<int>)
    ensures forall l | l in EffectiveListeners(ls, enabled, previous, active, done) && l.camouflageRequired ::
              ActiveRequired(l, active) && (l.sni.value in enabled || l in previous)
  {
    if ls != [] {
      KeptAreActive(previous, ls[0].ruleId, active);
      EffectiveAreServed(ls[1..], enabled, previous, active, done);
      EffectiveAreServed(ls[1..], enabled, previous, active, done + {ls[0].ruleId});
    }
  }

  /** Safe: no required listener runs without an active site, whatever the previous config was. */
  lemma RequiredListenersHaveActiveSites(desired: Config, previous: Option<Config>, active: set<string>, e: Config)
    requires IsEffective(desired, previous, active, e)
    ensures forall l | l in e.listeners && l.camouflageRequired :: l.sni.Some? && l.sni.value in active
    ensures RequiredSnis(e.listeners) <= active
  {
    EffectiveAreServed(desired.listeners, EnabledSnis(desired.sites), PreviousListeners(previous), active, {});
  }

  lemma {:induction false} KeptIff(ls: seq<Listener>, rule: int, active: set<string>, l: Listener)
    ensures l in Kept(ls, rule, active) <==> l in ls && l.ruleId == rule && ActiveRequired(l, active)
  {
    if ls != [] {
      KeptIff(ls[1..], rule, active, l);
      assert l in ls <==> l == ls[0] || l in ls[1..];
    }
  }

  predicate WithheldRule(ls: seq<Listener>, enabled: set<string>, active: set<string>, rule: int) {
    exists w :: w in ls && w.ruleId == rule && !Ready(w, enabled, active)
  }

  lemma {:induction false} EffectiveIff(ls: seq<Listener>, enabled: set<string>, previous: seq<Listener>,
                                        active: set<string>, done: set<int>, l: Listener)
    ensures l in EffectiveListeners(ls, enabled, previous, active, done) <==>
              || (l in ls && Ready(l, enabled, active))
              || (l in previous && ActiveRequired(l, active) && l.ruleId !in done && WithheldRule(ls, enabled, active, l.ruleId))
  {
    if ls != [] {
      var head, rest := ls[0], ls[1..];
      assert forall x :: x in ls <==> x == head || x in rest;
      if Ready(head, enabled, active) || head.ruleId in done {
        EffectiveIff(rest, enabled, previous, active, done, l);
      } else {
        EffectiveIff(rest, enabled, previous, active, done + {head.ruleId}, l);
        KeptIff(previous, head.ruleId, active, l);
      }
    }
  }

  /**
   What runs, exactly: the ready listeners of the desired config, and of each rule with a withheld listener the old
   required listeners whose sites are still active.
   */
  lemma EffectiveRunsExactly(desired: Config, previous: Option<Config>, active: set<string>, e: Config, l: Listener)
    requires IsEffective(desired, previous, active, e)
    ensures l in e.listeners <==>
              || (l in desired.listeners && Ready(l, EnabledSnis(desired.sites), active))
              || (l in PreviousListeners(previous) && ActiveRequired(l, active) &&
                  WithheldRule(desired.listeners, EnabledSnis(desired.sites), active, l.ruleId))
  {
    EffectiveIff(desired.listeners, EnabledSnis(desired.sites), PreviousListeners(previous), active, {}, l);
  }

  lemma {:induction false} AllReadyChangesNothing(ls: seq<Listener>, enabled: set<string>, previous: seq<Listener>,
                                                  active: set<string>, done: set<int>)
    requires forall l | l in ls :: Ready(l, enabled, active)
    ensures EffectiveListeners(ls, enabled, previous, active, done) == ls
  {
    if ls != [] {
      AllReadyChangesNothing(ls[1..], enabled, previous, active, done);
    }
  }

  /** Exact: with nothing withheld, the effective config is the desired config, sites and order included. */
  lemma NothingWithheldIsExact(desired: Config, previous: Option<Config>, active: set<string>, e: Config)
    requires IsEffective(desired, previous, active, e) && !Withheld(desired, active)
    ensures e == desired
  {
    var enabled := EnabledSnis(desired.sites);
    AllReadyChangesNothing(desired.listeners, enabled, PreviousListeners(previous), active, {});
    assert forall i | 0 <= i < |desired.listeners| :: desired.listeners[i] in desired.listeners;
    assert ExtraSites(RequiredSnis(e.listeners), enabled, PreviousSites(previous)) == {};
    var tail := e.sites[|desired.sites|..];
    assert |multiset(tail)| == 0;
    assert e.sites == desired.sites + tail;
  }

  /** Every required SNI has an enabled site in the same config. */
  predicate Served(c: Config) {
    RequiredSnis(c.listeners) <= EnabledSnis(c.sites)
  }

  /** An enabled SNI of the result is desired, or required and enabled before. */
  lemma EffectiveSniOrigin(desired: Config, previous: Option<Config>, active: set<string>, e: Config, i: nat)
    requires IsEffective(desired, previous, active, e) && i < |e.sites| && e.sites[i].enabled
    ensures var sni := e.sites[i].sni;
            sni in EnabledSnis(desired.sites) || (sni in RequiredSnis(e.listeners) && sni in EnabledSnis(PreviousSites(previous)))
  {
    var n := |desired.sites|;
    if i < n {
      assert e.sites[..n] == desired.sites;
      assert desired.sites[i] == e.sites[i];
    } else {
      assert e.sites[i] == e.sites[n..][i - n];
      assert e.sites[i] in multiset(e.sites[n..]);
    }
  }

  lemma ExtraSniIsEnabled(desired: Config, previous: Option<Config>, active: set<string>, e: Config, sni: string)
    requires IsEffective(desired, previous, active, e)
    requires sni in RequiredSnis(e.listeners) && sni in EnabledSnis(PreviousSites(previous)) && sni !in EnabledSnis(desired.sites)
    ensures sni in EnabledSnis(e.sites)
  {
    var n := |desired.sites|;
    var site := SiteFor(PreviousSites(previous), sni).value;
    assert site in ExtraSites(RequiredSnis(e.listeners), EnabledSnis(desired.sites), PreviousSites(previous));
    assert site in multiset(e.sites[n..]);
    var j :| 0 <= j < |e.sites[n..]| && e.sites[n..][j] == site;
    assert e.sites[n + j] == site;
  }

  /** The enabled SNIs of the result: the desired ones, and the old ones that what runs still requires. */
  lemma EffectiveSnis(desired: Config, previous: Option<Config>, active: set<string>, e: Config)
    requires IsEffective(desired, previous, active, e)
    ensures EnabledSnis(e.sites) == EnabledSnis(desired.sites) + (RequiredSnis(e.listeners) * EnabledSnis(PreviousSites(previous)))
  {
    var goal := EnabledSnis(desired.sites) + (RequiredSnis(e.listeners) * EnabledSnis(PreviousSites(previous)));
    forall i | 0 <= i < |e.sites| && e.sites[i].enabled ensures e.sites[i].sni in goal {
      EffectiveSniOrigin(desired, previous, active, e, i);
    }
    forall sni | sni in goal ensures sni in EnabledSnis(e.sites) {
      if sni in EnabledSnis(desired.sites) {
        var i :| 0 <= i < |desired.sites| && desired.sites[i].enabled && desired.sites[i].sni == sni;
        assert e.sites[i] == desired.sites[i];
      } else {
        ExtraSniIsEnabled(desired, previous, active, e, sni);
      }
    }
  }

  /** If every required SNI of the previous config had an enabled site, so has every one of the result. */
  lemma EnabledSitesArePreserved(desired: Config, previous: Option<Config>, active: set<string>, e: Config)
    requires IsEffective(desired, previous, active, e)
    requires previous.Some? ==> Served(previous.value)
    ensures Served(e)
  {
    EffectiveSnis(desired, previous, active, e);
    EffectiveAreServed(desired.listeners, EnabledSnis(desired.sites), PreviousListeners(previous), active, {});
    forall sni | sni in RequiredSnis(e.listeners) ensures sni in EnabledSnis(e.sites) {
      var i :| 0 <= i < |e.listeners| && e.listeners[i].camouflageRequired && e.listeners[i].sni == Some(sni);
      assert e.listeners[i] in e.listeners;
      if sni !in EnabledSnis(desired.sites) {
        assert e.listeners[i] in PreviousListeners(previous);
        var j :| 0 <= j < |previous.value.listeners| && previous.value.listeners[j] == e.listeners[i];
        assert sni in RequiredSnis(previous.value.listeners);
      }
    }
  }

  /** A running config whose sites are all still active is effective for itself: local recovery does not alter it. */
  lemma ServedConfigIsItsOwnEffect(c: Config, active: set<string>, e: Config)
    requires IsEffective(c, Some(c), active, e)
    requires Served(c) && RequiredSnis(c.listeners) <= active
    requires forall l | l in c.listeners && l.camouflageRequired :: l.sni.Some?
    ensures e == c
  {
    forall l | l in c.listeners ensures Ready(l, EnabledSnis(c.sites), active) {
      var i :| 0 <= i < |c.listeners| && c.listeners[i] == l;
      assert l.camouflageRequired ==> l.sni.value in RequiredSnis(c.listeners);
    }
    NothingWithheldIsExact(c, Some(c), active, e);
  }

  // ---------------------------------------------------------------------------------------------------------
  // Rebuilding from the own result.

  predicate SharesRule(ls: seq<Listener>, enabled: set<string>, active: set<string>) {
    exists l, w ::
      && l in ls && w in ls && l.ruleId == w.ruleId
      && ActiveRequired(l, active) && Ready(l, enabled, active) && !Ready(w, enabled, active)
  }

  lemma {:induction false} KeptConcat(a: seq<Listener>, b: seq<Listener>, rule: int, active: set<string>)
    ensures Kept(a + b, rule, active) == Kept(a, rule, active) + Kept(b, rule, active)
  {
    if a == [] {
      assert a + b == b;
    } else {
      KeptConcat(a[1..], b, rule, active);
      KeptCons(a[0], a[1..] + b, rule, active);
      Assoc([a[0]], a[1..], b);
      Assoc([a[0]], Kept(a[1..], rule, active), Kept(b, rule, active));
      assert a == [a[0]] + a[1..];
    }
  }

  lemma KeptCons(l: Listener, ls: seq<Listener>, rule: int, active: set<string>)
    ensures var kept := Kept(ls, rule, active);
            Kept([l] + ls, rule, active) == if l.ruleId == rule && ActiveRequired(l, active) then [l] + kept else kept
  {
    assert ([l] + ls)[1..] == ls;
  }

  lemma {:induction false} KeptOfKept(ls: seq<Listener>, rule: int, other: int, active: set<string>)
    ensures Kept(Kept(ls, other, active), rule, active) == if rule == other then Kept(ls, rule, active) else []
  {
    if ls != [] {
      KeptCons(ls[0], Kept(ls[1..], other, active), rule, active);
      KeptOfKept(ls[1..], rule, other, active);
    }
  }

  /** The ready required listeners of one rule. */
  function ReadyOf(ls: seq<Listener>, enabled: set<string>, active: set<string>, rule: int): seq<Listener> {
    if ls == [] then []
    else
      (if ls[0].ruleId == rule && ls[0].camouflageRequired && Ready(ls[0], enabled, active) then [ls[0]] else []) +
      ReadyOf(ls[1..], enabled, active, rule)
  }

  /** What a later rebuild would keep of a rule: its ready listeners, and once what was kept before if it is withheld. */
  lemma {:induction false} KeptOfEffective(ls: seq<Listener>, enabled: set<string>, previous: seq<Listener>,
                                           active: set<string>, done: set<int>, rule: int)
    ensures var kept := Kept(EffectiveListeners(ls, enabled, previous, active, done), rule, active);
            var ready := ReadyOf(ls, enabled, active, rule);
            if rule !in done && WithheldRule(ls, enabled, active, rule)
            then |kept| == |ready| + |Kept(previous, rule, active)| && (ready == [] ==> kept == Kept(previous, rule, active))
            else kept == ready
  {
    if ls != [] {
      var l, rest := ls[0], ls[1..];
      assert ls == [l] + rest;
      if Ready(l, enabled, active) {
        KeptOfEffective(rest, enabled, previous, active, done, rule);
        KeptCons(l, EffectiveListeners(rest, enabled, previous, active, done), rule, active);
      } else if l.ruleId in done {
        KeptOfEffective(rest, enabled, previous, active, done, rule);
      } else {
        KeptOfEffective(rest, enabled, previous, active, done + {l.ruleId}, rule);
        KeptConcat(Kept(previous, l.ruleId, active), EffectiveListeners(rest, enabled, previous, active, done + {l.ruleId}), rule, active);
        KeptOfKept(previous, rule, l.ruleId, active);
      }
    }
  }

  lemma {:induction false} NoReadyOf(ls: seq<Listener>, enabled: set<string>, active: set<string>, rule: int)
    ensures ReadyOf(ls, enabled, active, rule) == [] <==>
            forall l | l in ls && l.ruleId == rule && l.camouflageRequired :: !Ready(l, enabled, active)
  {
    if ls != [] {
      NoReadyOf(ls[1..], enabled, active, rule);
      assert forall l :: l in ls <==> l == ls[0] || l in ls[1..];
    }
  }

  /** The result depends on the previous listeners only through what it keeps of withheld rules. */
  lemma {:induction false} SameKeptSameEffect(ls: seq<Listener>, enabled: set<string>, p: seq<Listener>,
                                              q: seq<Listener>, active: set<string>, done: set<int>)
    requires forall w | w in ls && !Ready(w, enabled, active) :: Kept(p, w.ruleId, active) == Kept(q, w.ruleId, active)
    ensures EffectiveListeners(ls, enabled, p, active, done) == EffectiveListeners(ls, enabled, q, active, done)
  {
    if ls != [] {
      assert forall w | w in ls[1..] :: w in ls;
      SameKeptSameEffect(ls[1..], enabled, p, q, active, done);
      SameKeptSameEffect(ls[1..], enabled, p, q, active, done + {ls[0].ruleId});
    }
  }

  /** Rebuilding from the own result leaves the listeners alone exactly if no rule is both ready and withheld. */
  lemma ListenersAreFixedPoint(ls: seq<Listener>, enabled: set<string>, previous: seq<Listener>, active: set<string>)
    ensures var once := EffectiveListeners(ls, enabled, previous, active, {});
            EffectiveListeners(ls, enabled, once, active, {}) == once <==> !SharesRule(ls, enabled, active)
  {
    var once := EffectiveListeners(ls, enabled, previous, active, {});
    if SharesRule(ls, enabled, active) {
      var l, w :|
        && l in ls && w in ls && l.ruleId == w.ruleId
        && ActiveRequired(l, active) && Ready(l, enabled, active) && !Ready(w, enabled, active);
      KeptOfEffective(ls, enabled, previous, active, {}, l.ruleId);
      KeptOfEffective(ls, enabled, once, active, {}, l.ruleId);
      NoReadyOf(ls, enabled, active, l.ruleId);
    } else {
      forall w | w in ls && !Ready(w, enabled, active) ensures Kept(once, w.ruleId, active) == Kept(previous, w.ruleId, active) {
        KeptOfEffective(ls, enabled, previous, active, {}, w.ruleId);
        NoReadyOf(ls, enabled, active, w.ruleId);
      }
      SameKeptSameEffect(ls, enabled, once, previous, active, {});
    }
  }

  /** Withheld listeners of a rule that also has a ready one multiply with every rebuild. */
  lemma SharedRuleGrows(ls: seq<Listener>, enabled: set<string>, previous: seq<Listener>, active: set<string>,
                        rule: int)
    requires WithheldRule(ls, enabled, active, rule) && ReadyOf(ls, enabled, active, rule) != []
    ensures var once := EffectiveListeners(ls, enabled, previous, active, {});
            var twice := EffectiveListeners(ls, enabled, once, active, {});
            |Kept(twice, rule, active)| == |Kept(once, rule, active)| + |ReadyOf(ls, enabled, active, rule)|
  {
    KeptOfEffective(ls, enabled, previous, active, {}, rule);
    KeptOfEffective(ls, enabled, EffectiveListeners(ls, enabled, previous, active, {}), active, {}, rule);
  }

  /** The extra sites of the result are found again when rebuilding from it. */
  lemma ExtrasAreStable(desired: Config, previous: Option<Config>, active: set<string>, e: Config, sni: string)
    requires IsEffective(desired, previous, active, e)
    requires sni in RequiredSnis(e.listeners) && sni !in EnabledSnis(desired.sites)
    ensures SiteFor(e.sites, sni) == SiteFor(PreviousSites(previous), sni)
  {
    EffectiveSnis(desired, previous, active, e);
    var enabled, n := EnabledSnis(desired.sites), |desired.sites|;
    var extra := ExtraSites(RequiredSnis(e.listeners), enabled, PreviousSites(previous));
    var found := SiteFor(e.sites, sni);
    if found.Some? {
      assert e.sites[..n] == desired.sites;
      assert forall j | 0 <= j < n :: desired.sites[j] == e.sites[j];
      var i :| 0 <= i < |e.sites| && e.sites[i] == found.value;
      assert e.sites[i] == e.sites[n..][i - n];
      assert found.value in multiset(e.sites[n..]);
      assert found.value in extra;
    }
  }

  /**
   The fixed point: rebuilding the effective config from itself with the same desired config and the same active
   sites gives the same listeners and, as a multiset, the same sites, exactly if no rule is both ready and withheld.
   */
  lemma RebuildIsFixedPoint(desired: Config, previous: Option<Config>, active: set<string>, e: Config, again: Config)
    requires IsEffective(desired, previous, active, e) && IsEffective(desired, Some(e), active, again)
    ensures again.listeners == e.listeners && FingerprintOf(again) == FingerprintOf(e) <==>
            !SharesRule(desired.listeners, EnabledSnis(desired.sites), active)
  {
    ListenersAreFixedPoint(desired.listeners, EnabledSnis(desired.sites), PreviousListeners(previous), active);
    if again.listeners == e.listeners {
      var enabled, n := EnabledSnis(desired.sites), |desired.sites|;
      var referenced := RequiredSnis(e.listeners);
      forall sni | sni in referenced && sni !in enabled ensures SiteFor(e.sites, sni) == SiteFor(PreviousSites(previous), sni) {
        ExtrasAreStable(desired, previous, active, e, sni);
      }
      assert ExtraSites(referenced, enabled, e.sites) == ExtraSites(referenced, enabled, PreviousSites(previous));
      assert e.sites == desired.sites + e.sites[n..] && again.sites == desired.sites + again.sites[n..];
    }
  }

  /** One listener per rule is enough for that. */
  lemma OneListenerPerRule(ls: seq<Listener>, enabled: set<string>, active: set<string>)
    requires forall i, j | 0 <= i < j < |ls| :: ls[i].ruleId != ls[j].ruleId
    ensures !SharesRule(ls, enabled, active)
  {
    forall l, w | l in ls && w in ls && l.ruleId == w.ruleId ensures l == w {
      var i :| 0 <= i < |ls| && ls[i] == l;
      var j :| 0 <= j < |ls| && ls[j] == w;
      assert i == j;
    }
  }

  /** A rule with one ready and one withheld listener: each rebuild adds a copy of the ready one. */
  lemma DuplicationExample(l: Listener, w: Listener)
    requires l.ruleId == w.ruleId && l.camouflageRequired && w.camouflageRequired
    requires l.sni == Some("a.example") && w.sni == Some("b.example")
    ensures var snis := {"a.example"};
            && SharesRule([l, w], snis, snis)
            && EffectiveListeners([l, w], snis, [], snis, {}) == [l]
            && EffectiveListeners([l, w], snis, [l], snis, {}) == [l, l]
  {
    var snis := {"a.example"};
    assert l.sni.value != w.sni.value by {
      assert l.sni.value[0] != w.sni.value[0];
    }
    assert [l, w][1..] == [w] && [w][1..] == [];
    assert l in [l, w] && w in [l, w];
    assert Kept([l], l.ruleId, snis) == [l];
    assert EffectiveListeners([w], snis, [l], snis, {}) == Kept([l], w.ruleId, snis) + [];
    assert EffectiveListeners([w], snis, [], snis, {}) == Kept([], w.ruleId, snis) + [];
  }
}
