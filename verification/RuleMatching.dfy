/** How configuration lines are matched to a request: the tables of proxy/ControlMatcher.cc visit the
    records that match, and each record updates the result unless a line before it has
    (CheckForMatch in proxy/ControlBase.h). */
module RuleMatching {
  import opened Options

  /** The directives of cache.config, and a line of parent.config. */
  datatype Directive =
    | RevalidateAfter
    | NeverCache
    | StandardCache
    | IgnoreNoCache
    | IgnoreClientNoCache
    | IgnoreServerNoCache
    | PinInCache
    | TtlInCache
    | ParentLine

  /** A record.  `passes` tells whether its modifiers hold of the request at hand. */
  datatype Rule = Rule(line: nat, passes: bool, directive: Directive, timeArg: int, cookies: int)

  /** CheckForMatch. */
  predicate CheckForMatch(rule: Rule, lastNumber: int) {
    (lastNumber < 0 || lastNumber > rule.line) && rule.passes
  }

  /** A record of a regular-expression table, with what the match of its expression returned: at
      least 0 is a match, -1 is none, and anything less is an error. */
  datatype Expression = Expression(rule: Rule, r: int)

  /** The tables, with the records that the lookups by host, URL and address return. */
  datatype Tables = Tables(host: seq<Rule>, regex: seq<Expression>, url: Option<Rule>, ip: Option<Rule>, hostRegex: seq<Expression>)

  /** The records of a regular-expression table that are visited.  An error counts as a match only
      where `errors` is set. */
  function Visited(table: seq<Expression>, errors: bool): seq<Rule> {
    if table == [] then
      []
    else
      var last := table[|table| - 1];
      Visited(table[..|table| - 1], errors) + if last.r > -1 || (errors && last.r < -1) then [last.rule] else []
  }

  /** A record of a regular-expression table is visited exactly if one of its expressions matched,
      or, in the table of host expressions, if matching failed with an error. */
  lemma {:induction false} VisitedIff(table: seq<Expression>, errors: bool, rule: Rule)
    ensures rule in Visited(table, errors) <==>
      exists e :: e in table && e.rule == rule && (e.r >= 0 || (errors && e.r < -1))
  {
    if table != [] {
      var front, last := table[..|table| - 1], table[|table| - 1];
      assert table == front + [last];
      VisitedIff(front, errors, rule);
      assert last in table;
    }
  }

  /** An expression on the host that fails with error -8 has its record visited; one on the URL has not. */
  lemma ErrorsMatchHosts(rule: Rule)
    ensures Visited([Expression(rule, -8)], true) == [rule] && Visited([Expression(rule, -8)], false) == []
  {
    var table := [Expression(rule, -8)];
    assert table[..0] == [];
    assert Visited(table[..0], true) == [];
  }

  function Lookup(found: Option<Rule>): seq<Rule> {
    if found.Some? then [found.value] else []
  }

  /** The records visited for a request, in order. */
  function Visits(t: Tables): seq<Rule> {
    t.host + Visited(t.regex, false) + Lookup(t.url) + Lookup(t.ip) + Visited(t.hostRegex, true)
  }

  /** The record that each table finds is visited, and no other. */
  lemma VisitsAll(t: Tables, rule: Rule)
    ensures rule in Visits(t) <==>
      || rule in t.host || t.url == Some(rule) || t.ip == Some(rule)
      || (exists e :: e in t.regex && e.rule == rule && e.r >= 0)
      || (exists e :: e in t.hostRegex && e.rule == rule && (e.r >= 0 || e.r < -1))
  {
    VisitedIff(t.regex, false, rule);
    VisitedIff(t.hostRegex, true, rule);
    var front := t.host + Visited(t.regex, false);
    assert rule in front <==> rule in t.host || rule in Visited(t.regex, false);
    assert rule in front + Lookup(t.url) <==> rule in front || t.url == Some(rule);
    assert rule in front + Lookup(t.url) + Lookup(t.ip) <==> rule in front + Lookup(t.url) || t.ip == Some(rule);
  }

  /** The order of the tables. */
  lemma VisitsInOrder(host: Rule, regex: Rule, url: Rule, ip: Rule, hostRegex: Rule)
    ensures Visits(Tables([host], [Expression(regex, 0)], Some(url), Some(ip), [Expression(hostRegex, 0)])) == [host, regex, url, ip, hostRegex]
  {
    VisitedOne(regex, false);
    VisitedOne(hostRegex, true);
  }

  lemma VisitedOne(rule: Rule, errors: bool)
    ensures Visited([Expression(rule, 0)], errors) == [rule]
  {
    var table := [Expression(rule, 0)];
    assert table[..0] == [] && Visited(table[..0], errors) == [];
  }

  /** What the directives are about. */
  datatype Setting = Revalidation | Pinning | Ttl | ClientNoCache | ServerNoCache | Never | Parenting

  predicate Concerns(directive: Directive, about: Setting) {
    match about
    case Revalidation => directive == RevalidateAfter
    case Pinning => directive == PinInCache
    case Ttl => directive == TtlInCache
    case ClientNoCache => directive == IgnoreNoCache || directive == IgnoreClientNoCache
    case ServerNoCache => directive == IgnoreNoCache || directive == IgnoreServerNoCache
    case Never => directive == NeverCache || directive == StandardCache || directive == TtlInCache
    case Parenting => directive == ParentLine
  }

  predicate Applies(rule: Rule, about: Setting) {
    rule.passes && Concerns(rule.directive, about)
  }

  /** What deciding becomes when one more record is visited. */
  function Decides(before: Option<Rule>, rule: Rule, about: Setting): Option<Rule> {
    if Applies(rule, about) && (before == None || rule.line < before.value.line) then Some(rule) else before
  }

  /** The record that decides a setting, as the visits go: one that applies replaces a later line. */
  function Decider(visits: seq<Rule>, about: Setting): Option<Rule> {
    if visits == [] then
      None
    else
      Decides(Decider(visits[..|visits| - 1], about), visits[|visits| - 1], about)
  }

  /** Of the records that apply, this one has the smallest line number. */
  ghost predicate Earliest(visits: seq<Rule>, about: Setting, rule: Rule) {
    rule in visits && Applies(rule, about) && forall other :: other in visits && Applies(other, about) ==> rule.line <= other.line
  }

  /** The deciding record has the smallest line number of those that apply, and there is one
      exactly if some record applies. */
  lemma {:induction false} DeciderIsEarliest(visits: seq<Rule>, about: Setting)
    ensures var d := Decider(visits, about);
      if d.Some? then Earliest(visits, about, d.value) else forall rule :: rule in visits ==> !Applies(rule, about)
  {
    if visits != [] {
      var front, last := visits[..|visits| - 1], visits[|visits| - 1];
      DeciderIsEarliest(front, about);
      assert visits == front + [last];
    }
  }

  /** Different records are on different lines. */
  ghost predicate OneRulePerLine(visits: seq<Rule>) {
    forall a, b :: a in visits && b in visits && a.line == b.line ==> a == b
  }

  /** The order of the visits, and how often each record is visited, make no difference. */
  lemma OrderIsIrrelevant(visits: seq<Rule>, others: seq<Rule>, about: Setting)
    requires OneRulePerLine(visits) && forall rule :: rule in visits <==> rule in others
    ensures Decider(visits, about) == Decider(others, about)
  {
    DeciderIsEarliest(visits, about);
    DeciderIsEarliest(others, about);
  }

  /** What writing never_cache becomes when one more record is visited.  A ttl record checks its line
      against the ttl records only, and overwrites a never_cache setting of an earlier line. */
  function Writes(before: Option<Rule>, ttlBefore: Option<Rule>, rule: Rule): Option<Rule> {
    if rule.directive == TtlInCache then
      if CheckForMatch(rule, Line(ttlBefore)) then Some(rule) else before
    else if rule.directive in {NeverCache, StandardCache} && CheckForMatch(rule, Line(before)) then
      Some(rule)
    else
      before
  }

  /** The record that last wrote never_cache. */
  function NeverWriter(visits: seq<Rule>): Option<Rule> {
    if visits == [] then
      None
    else
      var front, rule := visits[..|visits| - 1], visits[|visits| - 1];
      Writes(NeverWriter(front), Decider(front, Ttl), rule)
  }

  function Line(rule: Option<Rule>): int {
    if rule.Some? then rule.value.line else -1
  }

  function Time(rule: Option<Rule>): int {
    if rule.Some? then rule.value.timeArg else -1
  }

  /** The last record visited that has a setting for responses to cookies, whether or not its
      modifiers hold. */
  function Cookies(visits: seq<Rule>): int {
    if visits == [] then -1
    else if visits[|visits| - 1].cookies >= 0 then visits[|visits| - 1].cookies
    else Cookies(visits[..|visits| - 1])
  }

  class ControlMatcher {
    const tables: Tables

    constructor (tables: Tables)
      ensures this.tables == tables
    {
      this.tables := tables;
    }

    /** The loop of RegexMatcher::Match, and of HostRegexMatcher::Match. */
    static method VisitExpressions(table: seq<Expression>, hostRegex: bool) returns (visits: seq<Rule>)
      ensures visits == Visited(table, hostRegex)
    {
      visits := [];
      for i := 0 to |table|
        invariant visits == Visited(table[..i], hostRegex)
      {
        assert table[..i + 1][..i] == table[..i];
        var r := table[i].r;
        var visited := if hostRegex then r != -1 else r > -1;
        if visited {
          visits := visits + [table[i].rule];
        }
      }
      assert table[..|table|] == table;
    }

    /** Match: the records whose UpdateMatch is called, in order: those the tables find. */
    method Match() returns (visits: seq<Rule>)
      ensures visits == Visits(tables)
      ensures tables.host <= visits
      ensures forall rule :: rule in visits <==>
        || rule in tables.host || tables.url == Some(rule) || tables.ip == Some(rule)
        || (exists e :: e in tables.regex && e.rule == rule && e.r >= 0)
        || (exists e :: e in tables.hostRegex && e.rule == rule && (e.r >= 0 || e.r < -1))
    {
      forall rule { VisitsAll(tables, rule); }
      visits := tables.host;
      var more := VisitExpressions(tables.regex, false);
      visits := visits + more;
      if tables.url.Some? {
        visits := visits + [tables.url.value];
      }
      if tables.ip.Some? {
        visits := visits + [tables.ip.value];
      }
      more := VisitExpressions(tables.hostRegex, true);
      visits := visits + more;
    }
  }

  /** ParentResult, as the matching of parent.config fills it in. */
  class ParentLookup {
    var rec: Option<Rule>
    var lineNumber: int

    constructor ()
      ensures rec == None && lineNumber == -1
    {
      rec, lineNumber := None, -1;
    }

    /** ParentRecord::UpdateMatch. */
    method UpdateMatch(rule: Rule)
      requires lineNumber == Line(rec)
      modifies this
      ensures rec == (if CheckForMatch(rule, old(lineNumber)) then Some(rule) else old(rec)) && lineNumber == Line(rec)
    {
      if CheckForMatch(rule, lineNumber) {
        rec := Some(rule);
        lineNumber := rule.line;
      }
    }

    /** The line that is found is the one with the smallest number whose modifiers hold. */
    method Match(matcher: ControlMatcher)
      requires rec == None && lineNumber == -1
      requires forall rule :: rule in Visits(matcher.tables) ==> rule.directive == ParentLine
      modifies this
      ensures rec == Decider(Visits(matcher.tables), Parenting) && lineNumber == Line(rec)
      ensures rec.Some? ==> Earliest(Visits(matcher.tables), Parenting, rec.value)
      ensures rec == None ==> forall rule :: rule in Visits(matcher.tables) ==> !rule.passes
    {
      var visits := matcher.Match();
      for i := 0 to |visits|
        invariant rec == Decider(visits[..i], Parenting) && lineNumber == Line(rec)
      {
        assert visits[..i + 1][..i] == visits[..i] && visits[i] in visits;
        UpdateMatch(visits[i]);
      }
      assert visits[..|visits|] == visits;
      DeciderIsEarliest(visits, Parenting);
    }
  }

  /** The records that decide each setting. */
  datatype Deciders = Deciders(reval: Option<Rule>, pin: Option<Rule>, ttl: Option<Rule>, ignoreClient: Option<Rule>,
    ignoreServer: Option<Rule>, never: Option<Rule>, cookies: int)

  function DecidersOf(visits: seq<Rule>): Deciders {
    Deciders(Decider(visits, Revalidation), Decider(visits, Pinning), Decider(visits, Ttl), Decider(visits, ClientNoCache),
             Decider(visits, ServerNoCache), NeverWriter(visits), Cookies(visits))
  }

  function Visit(d: Deciders, rule: Rule): Deciders {
    Deciders(Decides(d.reval, rule, Revalidation), Decides(d.pin, rule, Pinning), Decides(d.ttl, rule, Ttl),
             Decides(d.ignoreClient, rule, ClientNoCache), Decides(d.ignoreServer, rule, ServerNoCache),
             Writes(d.never, d.ttl, rule), if rule.cookies >= 0 then rule.cookies else d.cookies)
  }

  /** Whatever the order of the visits, and however often each record is visited, every setting but
      never_cache and the one for cookies comes out the same. */
  lemma SettingsIgnoreOrder(visits: seq<Rule>, others: seq<Rule>)
    requires OneRulePerLine(visits) && forall rule :: rule in visits <==> rule in others
    ensures var d, e := DecidersOf(visits), DecidersOf(others);
      d.(never := None, cookies := -1) == e.(never := None, cookies := -1)
  {
    OrderIsIrrelevant(visits, others, Revalidation);
    OrderIsIrrelevant(visits, others, Pinning);
    OrderIsIrrelevant(visits, others, Ttl);
    OrderIsIrrelevant(visits, others, ClientNoCache);
    OrderIsIrrelevant(visits, others, ServerNoCache);
  }

  lemma DecidersStep(visits: seq<Rule>, i: nat)
    requires i < |visits|
    ensures DecidersOf(visits[..i + 1]) == Visit(DecidersOf(visits[..i]), visits[i])
  {
    assert visits[..i + 1][..i] == visits[..i];
  }

  /** CacheControlResult. */
  class CacheControlResult {
    var revalidateAfter: int
    var pinInCacheFor: int
    var ttlInCache: int
    var neverCache: bool
    var ignoreClientNoCache: bool
    var ignoreServerNoCache: bool
    var cacheResponsesToCookies: int
    var revalLine: int
    var neverLine: int
    var pinLine: int
    var ttlLine: int
    var ignoreClientLine: int
    var ignoreServerLine: int

    constructor ()
      ensures Reflects(DecidersOf([]))
    {
      revalidateAfter, pinInCacheFor, ttlInCache := -1, -1, -1;
      neverCache, ignoreClientNoCache, ignoreServerNoCache, cacheResponsesToCookies := false, false, false, -1;
      revalLine, neverLine, pinLine, ttlLine, ignoreClientLine, ignoreServerLine := -1, -1, -1, -1, -1, -1;
    }

    /** The settings are those of these records. */
    ghost predicate Reflects(d: Deciders)
      reads this
    {
      && revalLine == Line(d.reval) && revalidateAfter == Time(d.reval)
      && pinLine == Line(d.pin) && pinInCacheFor == Time(d.pin)
      && ttlLine == Line(d.ttl) && ttlInCache == Time(d.ttl)
      && ignoreClientLine == Line(d.ignoreClient) && ignoreClientNoCache == d.ignoreClient.Some?
      && ignoreServerLine == Line(d.ignoreServer) && ignoreServerNoCache == d.ignoreServer.Some?
      && neverLine == Line(d.never) && neverCache == (d.never.Some? && d.never.value.directive == NeverCache)
      && cacheResponsesToCookies == d.cookies
    }

    method UpdateRevalidate(rule: Rule, ghost before: Option<Rule>)
      requires revalLine == Line(before) && revalidateAfter == Time(before) && rule.directive == RevalidateAfter
      modifies this`revalidateAfter, this`revalLine
      ensures var after := Decides(before, rule, Revalidation);
        revalLine == Line(after) && revalidateAfter == Time(after)
    {
      if CheckForMatch(rule, revalLine) {
        revalidateAfter, revalLine := rule.timeArg, rule.line;
      }
    }

    /** The cases of never-cache and standard-cache. */
    method UpdateNever(rule: Rule, ghost d: Deciders)
      requires neverLine == Line(d.never) && neverCache == (d.never.Some? && d.never.value.directive == NeverCache)
      requires rule.directive in {NeverCache, StandardCache}
      modifies this`neverCache, this`neverLine
      ensures var after := Writes(d.never, d.ttl, rule);
        neverLine == Line(after) && neverCache == (after.Some? && after.value.directive == NeverCache)
    {
      if CheckForMatch(rule, neverLine) {
        neverCache, neverLine := rule.directive == NeverCache, rule.line;
      }
    }

    method UpdateIgnoreClient(rule: Rule, ghost before: Option<Rule>)
      requires ignoreClientLine == Line(before) && ignoreClientNoCache == before.Some?
      requires rule.directive in {IgnoreNoCache, IgnoreClientNoCache}
      modifies this`ignoreClientNoCache, this`ignoreClientLine
      ensures var after := Decides(before, rule, ClientNoCache);
        ignoreClientLine == Line(after) && ignoreClientNoCache == after.Some?
    {
      if CheckForMatch(rule, ignoreClientLine) {
        ignoreClientNoCache, ignoreClientLine := true, rule.line;
      }
    }

    method UpdateIgnoreServer(rule: Rule, ghost before: Option<Rule>)
      requires ignoreServerLine == Line(before) && ignoreServerNoCache == before.Some?
      requires rule.directive in {IgnoreNoCache, IgnoreServerNoCache}
      modifies this`ignoreServerNoCache, this`ignoreServerLine
      ensures var after := Decides(before, rule, ServerNoCache);
        ignoreServerLine == Line(after) && ignoreServerNoCache == after.Some?
    {
      if CheckForMatch(rule, ignoreServerLine) {
        ignoreServerNoCache, ignoreServerLine := true, rule.line;
      }
    }

    method UpdatePin(rule: Rule, ghost before: Option<Rule>)
      requires pinLine == Line(before) && pinInCacheFor == Time(before) && rule.directive == PinInCache
      modifies this`pinInCacheFor, this`pinLine
      ensures var after := Decides(before, rule, Pinning);
        pinLine == Line(after) && pinInCacheFor == Time(after)
    {
      if CheckForMatch(rule, pinLine) {
        pinInCacheFor, pinLine := rule.timeArg, rule.line;
      }
    }

    /** ttl-in-cache overrides never-cache. */
    method UpdateTtl(rule: Rule, ghost d: Deciders)
      requires ttlLine == Line(d.ttl) && ttlInCache == Time(d.ttl) && rule.directive == TtlInCache
      requires neverLine == Line(d.never) && neverCache == (d.never.Some? && d.never.value.directive == NeverCache)
      modifies this`ttlInCache, this`ttlLine, this`neverCache, this`neverLine
      ensures var after := Decides(d.ttl, rule, Ttl);
        ttlLine == Line(after) && ttlInCache == Time(after)
      ensures var after := Writes(d.never, d.ttl, rule);
        neverLine == Line(after) && neverCache == (after.Some? && after.value.directive == NeverCache)
    {
      if CheckForMatch(rule, ttlLine) {
        ttlInCache, ttlLine := rule.timeArg, rule.line;
        neverCache, neverLine := false, rule.line;
      }
    }

    /** The directives that ignore a request not to cache. */
    method UpdateIgnore(rule: Rule, ghost d: Deciders)
      requires Reflects(d) && rule.directive in {IgnoreNoCache, IgnoreClientNoCache, IgnoreServerNoCache}
      modifies this`ignoreClientNoCache, this`ignoreClientLine, this`ignoreServerNoCache, this`ignoreServerLine
      ensures Reflects(Visit(d, rule).(cookies := d.cookies))
    {
      if rule.directive != IgnoreServerNoCache {
        UpdateIgnoreClient(rule, d.ignoreClient);
      }
      if rule.directive != IgnoreClientNoCache {
        UpdateIgnoreServer(rule, d.ignoreServer);
      }
    }

    /** The directives of CacheControlRecord::UpdateMatch. */
    method UpdateDirective(rule: Rule, ghost d: Deciders)
      requires Reflects(d) && rule.directive != ParentLine
      modifies this
      ensures Reflects(Visit(d, rule).(cookies := d.cookies))
    {
      match rule.directive {
        case RevalidateAfter => UpdateRevalidate(rule, d.reval);
        case NeverCache => UpdateNever(rule, d);
        case StandardCache => UpdateNever(rule, d);
        case PinInCache => UpdatePin(rule, d.pin);
        case TtlInCache => UpdateTtl(rule, d);
        case IgnoreNoCache => UpdateIgnore(rule, d);
        case IgnoreClientNoCache => UpdateIgnore(rule, d);
        case IgnoreServerNoCache => UpdateIgnore(rule, d);
      }
    }

    /** CacheControlRecord::UpdateMatch. */
    method UpdateMatch(rule: Rule, ghost d: Deciders)
      requires Reflects(d) && rule.directive != ParentLine
      modifies this
      ensures Reflects(Visit(d, rule))
    {
      UpdateDirective(rule, d);
      if rule.cookies >= 0 {
        cacheResponsesToCookies := rule.cookies;
      }
    }

    /** The settings for a request. */
    method Match(matcher: ControlMatcher)
      requires Reflects(DecidersOf([]))
      requires forall rule :: rule in Visits(matcher.tables) ==> rule.directive != ParentLine
      modifies this
      ensures Reflects(DecidersOf(Visits(matcher.tables)))
    {
      var visits := matcher.Match();
      for i := 0 to |visits|
        invariant Reflects(DecidersOf(visits[..i]))
      {
        assert visits[i] in visits;
        UpdateMatch(visits[i], DecidersOf(visits[..i]));
        DecidersStep(visits, i);
      }
      assert visits[..|visits|] == visits;
    }
  }

  /** Without a ttl record that applies, never_cache too is decided by the earliest line. */
  lemma {:induction false} NeverWithoutTtl(visits: seq<Rule>)
    requires forall rule :: rule in visits ==> !Applies(rule, Ttl)
    ensures NeverWriter(visits) == Decider(visits, Never)
  {
    if visits != [] {
      var front, last := visits[..|visits| - 1], visits[|visits| - 1];
      assert visits == front + [last] && last in visits;
      NeverWithoutTtl(front);
    }
  }

  /** Once the deciding ttl record has been visited, only an earlier line writes never_cache. */
  lemma NeverStep(visits: seq<Rule>, since: seq<Rule>, last: Rule, ttl: Rule)
    requires Decider(visits, Ttl) == Some(ttl) && NeverWriter(visits) == Decider(since, Never)
    requires Decider(since, Never).Some? && Decider(since, Never).value.line <= ttl.line
    requires last.passes && last.directive == TtlInCache ==> last.line >= ttl.line
    ensures NeverWriter(visits + [last]) == Decider(since + [last], Never) && Decider(visits + [last], Ttl) == Some(ttl)
    ensures Decider(since + [last], Never).Some? && Decider(since + [last], Never).value.line <= ttl.line
  {
    assert (visits + [last])[..|visits|] == visits && (since + [last])[..|since|] == since;
  }

  lemma Snoc(s: seq<Rule>, t: seq<Rule>)
    requires t != []
    ensures s + t == s + t[..|t| - 1] + [t[|t| - 1]]
  {
  }

  /** After the visits `since`, the last of them the deciding ttl record, only an earlier line writes
      never_cache. */
  lemma {:induction false} NeverAfterTtl(since: seq<Rule>, ttl: Rule, post: seq<Rule>)
    requires Applies(ttl, Ttl) && Decider(since, Ttl) == NeverWriter(since) == Some(ttl)
    requires forall rule :: rule in post && Applies(rule, Ttl) ==> ttl.line <= rule.line
    ensures var d := Decider([ttl] + post, Never);
      d.Some? && d.value.line <= ttl.line && NeverWriter(since + post) == d
    ensures Decider(since + post, Ttl) == Some(ttl)
  {
    if post == [] {
      assert since + post == since && [ttl] + post == [ttl] && [ttl][..0] == [];
    } else {
      var front, last := post[..|post| - 1], post[|post| - 1];
      assert post == front + [last] && last in post;
      NeverAfterTtl(since, ttl, front);
      NeverStep(since + front, [ttl] + front, last, ttl);
      Snoc(since, post);
      Snoc([ttl], post);
    }
  }

  /** A deciding ttl record writes never_cache at its first visit. */
  lemma TtlArrives(visits: seq<Rule>, pre: seq<Rule>, ttl: Rule)
    requires OneRulePerLine(visits) && Earliest(visits, Ttl, ttl) && ttl !in pre
    requires forall rule :: rule in pre ==> rule in visits
    ensures Decider(pre + [ttl], Ttl) == NeverWriter(pre + [ttl]) == Some(ttl)
  {
    assert (pre + [ttl])[..|pre|] == pre;
    DeciderIsEarliest(pre, Ttl);
  }

  /** The deciding ttl record discards what the records visited before it set. */
  lemma NeverFrom(visits: seq<Rule>, k: nat)
    requires OneRulePerLine(visits) && k < |visits|
    requires Earliest(visits, Ttl, visits[k]) && visits[k] !in visits[..k]
    ensures NeverWriter(visits) == Decider(visits[k..], Never)
  {
    var pre, ttl, post := visits[..k], visits[k], visits[k + 1..];
    TtlArrives(visits, pre, ttl);
    NeverAfterTtl(pre + [ttl], ttl, post);
    Rejoin(visits, k);
  }

  /** A list cut at one of its elements. */
  lemma Rejoin(visits: seq<Rule>, k: nat)
    requires k < |visits|
    ensures visits[..k] + [visits[k]] + visits[k + 1..] == visits && [visits[k]] + visits[k + 1..] == visits[k..]
  {
  }

  /** The first visit of a record. */
  lemma {:induction false} FirstVisit(visits: seq<Rule>, rule: Rule) returns (k: nat)
    requires rule in visits
    ensures k < |visits| && visits[k] == rule && rule !in visits[..k]
  {
    var front := visits[..|visits| - 1];
    if rule in front {
      k := FirstVisit(front, rule);
      assert front[..k] == visits[..k];
    } else {
      assert visits == front + [visits[|visits| - 1]];
      k := |front|;
    }
  }

  /** A ttl record that applies is first visited at a place from where on the earliest line about
      never_cache is not visited. */
  ghost predicate Overwritten(visits: seq<Rule>) {
    exists k ::
      && 0 <= k < |visits| && Decider(visits, Ttl) == Some(visits[k]) && visits[k] !in visits[..k]
      && Decider(visits, Never).Some? && Decider(visits, Never).value !in visits[k..]
  }

  /** never_cache is decided by the earliest of the lines about it exactly if that is visited at or
      after the first visit of the deciding ttl record, or there is none. */
  lemma NeverIsEarliestIff(visits: seq<Rule>)
    requires OneRulePerLine(visits)
    ensures NeverWriter(visits) == Decider(visits, Never) <==> !Overwritten(visits)
  {
    DeciderIsEarliest(visits, Ttl);
    DeciderIsEarliest(visits, Never);
    var ttl, earliest := Decider(visits, Ttl), Decider(visits, Never);
    if ttl == None {
      NeverWithoutTtl(visits);
    } else {
      var k := FirstVisit(visits, ttl.value);
      NeverFrom(visits, k);
      DeciderIsEarliest(visits[k..], Never);
      assert visits[k..][0] == ttl.value && ttl.value in visits[k..];
      assert Applies(ttl.value, Never) && earliest.Some?;
      forall i, j | 0 <= i < j < |visits| && visits[i] == visits[j]
        ensures visits[j] in visits[..j]
      {
        assert visits[..j][i] == visits[i];
      }
    }
  }

  /** The same two lines of cache.config, never-cache on line 1 and ttl-in-cache on line 2, give
      different answers depending on the tables they are in. */
  lemma NeverDependsOnOrder(time: int)
    ensures var never, ttl := Rule(1, true, NeverCache, 0, -1), Rule(2, true, TtlInCache, time, -1);
      NeverWriter([never, ttl]) == Some(ttl) && NeverWriter([ttl, never]) == Some(never)
  {
    var never, ttl := Rule(1, true, NeverCache, 0, -1), Rule(2, true, TtlInCache, time, -1);
    assert [never, ttl][..1] == [never] && [ttl, never][..1] == [ttl];
    assert NeverWriter([never]) == Some(never) && NeverWriter([ttl]) == Some(ttl);
    assert Decider([never], Ttl) == None;
  }

  /** The setting for responses to cookies is the last one visited, even of a record whose
      modifiers do not hold. */
  lemma {:induction false} CookiesAreLast(visits: seq<Rule>)
    ensures Cookies(visits) >= 0 <==> exists rule :: rule in visits && rule.cookies >= 0
    ensures forall i :: 0 <= i < |visits| && visits[i].cookies >= 0 && (forall j :: i < j < |visits| ==> visits[j].cookies < 0) ==>
      Cookies(visits) == visits[i].cookies
  {
    if visits != [] {
      var front, last := visits[..|visits| - 1], visits[|visits| - 1];
      assert visits == front + [last];
      CookiesAreLast(front);
    }
  }

  /** A record whose modifiers do not hold sets what the record of an earlier line, visited before, had set. */
  lemma CookiesIgnoreModifiers()
    ensures Cookies([Rule(1, true, NeverCache, 0, 0), Rule(2, false, NeverCache, 0, 4)]) == 4
  {
  }
}
