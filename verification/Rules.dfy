/** Subscription rules: the matcher, and the relay filters merged from the rules. */
module Rules {
  import opened Prelude

  datatype Uuid = Uuid(n: nat)

  /** Parsing and printing of channel ids. Parsing accepts every printed id, and other spellings too. */
  datatype Ids = Ids(parse: string -> Option<Uuid>, show: Uuid -> string)

  ghost predicate RoundTrips(ids: Ids) {
    forall u :: ids.parse(ids.show(u)) == Some(u)
  }

  datatype Scope = All(word: string) | List(channels: seq<string>)

  datatype Rule = Rule(
    name: string,
    channels: Scope,
    kinds: seq<nat>,
    requireMention: bool,
    filter: Option<string>,
    promptTag: Option<string>
  )

  datatype Event = Event(kind: nat, tags: seq<seq<string>>)

  datatype ChannelFilter = ChannelFilter(kinds: Option<seq<nat>>, requireMention: bool)

  datatype Mode = Mentions | AllEvents | FromConfig

  datatype Config = Config(
    mode: Mode,
    channelsOverride: Option<seq<string>>,
    kindsOverride: Option<seq<nat>>,
    noMentionFilter: bool
  )

  const KIND_STREAM_MESSAGE := 9
  const KIND_STREAM_REMINDER := 40007
  const KIND_WORKFLOW_APPROVAL_REQUESTED := 46010
  const MAX_CONSECUTIVE_TIMEOUTS := 5

  // ----------------------------------------------------------------- matcher

  /** The matcher compares printed ids literally. */
  predicate InScope(ids: Ids, scope: Scope, channel: Uuid) {
    match scope
    case All(word) => word == "all"
    case List(listed) => ids.show(channel) in listed
  }

  predicate Mentioned(e: Event, agent: string) {
    exists i | 0 <= i < |e.tags| :: |e.tags[i]| > 1 && e.tags[i][0] == "p" && e.tags[i][1] == agent
  }

  /** The checks before the filter expression. */
  predicate Admits(ids: Ids, rule: Rule, channel: Uuid, e: Event, agent: string) {
    && InScope(ids, rule.channels, channel)
    && (rule.kinds != [] ==> e.kind in rule.kinds)
    && (rule.requireMention ==> Mentioned(e, agent))
  }

  /** How the filter expression of a rule evaluated, if it was evaluated. */
  datatype Evaluation = Yes | No | TimedOut | Failed

  datatype Outcome = NoMatch | Matched(index: nat, promptTag: string)

  /** Rule `i` is reached and rejected: the scan goes on to the next rule. */
  predicate Declines(ids: Ids, rules: seq<Rule>, counters: seq<nat>, evals: seq<Evaluation>, channel: Uuid, e: Event, agent: string, i: nat)
    requires i < |rules| == |counters| == |evals|
  {
    || !Admits(ids, rules[i], channel, e, agent)
    || (rules[i].filter.Some? && counters[i] < MAX_CONSECUTIVE_TIMEOUTS && evals[i] == No)
  }

  predicate Selects(ids: Ids, rules: seq<Rule>, counters: seq<nat>, evals: seq<Evaluation>, channel: Uuid, e: Event, agent: string, i: nat)
    requires i < |rules| == |counters| == |evals|
  {
    && Admits(ids, rules[i], channel, e, agent)
    && (rules[i].filter.Some? ==> counters[i] < MAX_CONSECUTIVE_TIMEOUTS && evals[i] == Yes)
  }

  /** What reaching rule `i` does to its timeout counter. */
  function Counted(rule: Rule, counter: nat, eval: Evaluation): nat {
    if rule.filter.None? || counter >= MAX_CONSECUTIVE_TIMEOUTS then counter
    else match eval
      case Yes => 0
      case No => 0
      case TimedOut => counter + 1
      case Failed => counter
  }

  function CountedIf(ids: Ids, rule: Rule, channel: Uuid, e: Event, agent: string, counter: nat, eval: Evaluation): nat {
    if Admits(ids, rule, channel, e, agent) then Counted(rule, counter, eval) else counter
  }

  /** The scan gets to rule `i`: all before it decline. */
  ghost predicate Reached(ids: Ids, rules: seq<Rule>, counters: seq<nat>, evals: seq<Evaluation>, channel: Uuid, e: Event, agent: string, i: nat)
    requires i < |rules| == |counters| == |evals|
  {
    forall k | 0 <= k < i :: Declines(ids, rules, counters, evals, channel, e, agent, k)
  }

  /**
   First match wins, any filter trouble ends the scan. The result is a rule
   exactly when it selects and all before it decline; the counters that move
   are those of the rules that were reached and whose expression was evaluated.
   */
  method MatchEvent(ids: Ids, e: Event, channel: Uuid, rules: seq<Rule>, counters: seq<nat>, evals: seq<Evaluation>, agent: string)
    returns (outcome: Outcome, after: seq<nat>)
    requires |rules| == |counters| == |evals|
    ensures outcome.Matched? ==>
              && outcome.index < |rules|
              && Selects(ids, rules, counters, evals, channel, e, agent, outcome.index)
              && (forall k | 0 <= k < outcome.index :: Declines(ids, rules, counters, evals, channel, e, agent, k))
              && outcome.promptTag == (var r := rules[outcome.index]; if r.promptTag.Some? then r.promptTag.value else r.name)
    ensures outcome.NoMatch? ==>
              forall i | 0 <= i < |rules| && Selects(ids, rules, counters, evals, channel, e, agent, i) ::
                exists k | 0 <= k < i :: !Declines(ids, rules, counters, evals, channel, e, agent, k)
    ensures |after| == |rules| && forall i | 0 <= i < |rules| ::
              after[i] == if Reached(ids, rules, counters, evals, channel, e, agent, i)
                          then CountedIf(ids, rules[i], channel, e, agent, counters[i], evals[i]) else counters[i]
  {
    after := counters;
    var i := 0;
    while i < |rules|
      invariant 0 <= i <= |rules| && |after| == |rules|
      invariant forall k | 0 <= k < i :: Declines(ids, rules, counters, evals, channel, e, agent, k)
      invariant forall k | 0 <= k < i :: !Selects(ids, rules, counters, evals, channel, e, agent, k)
      invariant forall k | i <= k < |rules| :: after[k] == counters[k]
      invariant forall k | 0 <= k < i :: after[k] == CountedIf(ids, rules[k], channel, e, agent, counters[k], evals[k])
    {
      var rule := rules[i];
      ghost var declines := Declines(ids, rules, counters, evals, channel, e, agent, i);
      if Admits(ids, rule, channel, e, agent) {
        if rule.filter.Some? {
          if counters[i] >= MAX_CONSECUTIVE_TIMEOUTS {
            return NoMatch, after;
          }
          match evals[i] {
            case Yes =>
              after := after[i := 0];
              return Matched(i, if rule.promptTag.Some? then rule.promptTag.value else rule.name), after;
            case No =>
              after := after[i := 0];
            case TimedOut =>
              after := after[i := counters[i] + 1];
              return NoMatch, after;
            case Failed =>
              return NoMatch, after;
          }
        } else {
          return Matched(i, if rule.promptTag.Some? then rule.promptTag.value else rule.name), after;
        }
      }
      i := i + 1;
    }
    return NoMatch, after;
  }

  // ------------------------------------------------------------------- merge

  /** The resolver compares parsed ids. */
  predicate Applies(ids: Ids, rule: Rule, channel: Uuid) {
    match rule.channels
    case All(word) => word == "all"
    case List(listed) => exists i | 0 <= i < |listed| :: ids.parse(listed[i]) == Some(channel)
  }

  datatype Merged = Merged(kinds: Option<seq<nat>>, requireMention: bool, hasRule: bool)

  function AddKinds(kinds: seq<nat>, more: seq<nat>): seq<nat> {
    if more == [] then kinds
    else
      var k := AddKinds(kinds, more[..|more| - 1]);
      if more[|more| - 1] in k then k else k + [more[|more| - 1]]
  }

  function MergeOne(ids: Ids, m: Merged, rule: Rule, channel: Uuid): Merged {
    if !Applies(ids, rule, channel) then m
    else Merged(if rule.kinds == [] || m.kinds.None? then None else Some(AddKinds(m.kinds.value, rule.kinds)),
                m.requireMention && rule.requireMention, true)
  }

  function MergeAll(ids: Ids, rules: seq<Rule>, channel: Uuid): Merged {
    if rules == [] then Merged(Some([]), true, false)
    else MergeOne(ids, MergeAll(ids, rules[..|rules| - 1], channel), rules[|rules| - 1], channel)
  }

  /** The filter each mode gives a channel, if any. */
  function FilterFor(ids: Ids, c: Config, rules: seq<Rule>, channel: Uuid): Option<ChannelFilter> {
    if c.mode != FromConfig && c.channelsOverride.Some? && !Listed(ids, c.channelsOverride.value, channel) then None
    else match c.mode
      case Mentions => Some(ChannelFilter(Some(DefaultKinds(c)), !c.noMentionFilter))
      case AllEvents => Some(ChannelFilter(c.kindsOverride, false))
      case FromConfig =>
        var m := MergeAll(ids, rules, channel);
        if m.hasRule then Some(ChannelFilter(m.kinds, m.requireMention)) else None
  }

  predicate Listed(ids: Ids, texts: seq<string>, channel: Uuid) {
    exists i | 0 <= i < |texts| :: ids.parse(texts[i]) == Some(channel)
  }

  function DefaultKinds(c: Config): seq<nat> {
    if c.kindsOverride.Some? then c.kindsOverride.value
    else [KIND_STREAM_MESSAGE, KIND_WORKFLOW_APPROVAL_REQUESTED, KIND_STREAM_REMINDER]
  }

  /** The merge loop over all rules for one channel. */
  method MergeRules(ids: Ids, rules: seq<Rule>, channel: Uuid) returns (m: Merged)
    ensures m == MergeAll(ids, rules, channel)
  {
    var kinds: Option<seq<nat>> := Some([]);
    var requireMention, hasRule := true, false;
    var i := 0;
    while i < |rules|
      invariant 0 <= i <= |rules|
      invariant Merged(kinds, requireMention, hasRule) == MergeAll(ids, rules[..i], channel)
    {
      var rule := rules[i];
      assert rules[..i + 1][..i] == rules[..i];
      if Applies(ids, rule, channel) {
        hasRule := true;
        if rule.kinds == [] {
          kinds := None;
        } else if kinds.Some? {
          var more := Union(kinds.value, rule.kinds);
          kinds := Some(more);
        }
        if !rule.requireMention {
          requireMention := false;
        }
      }
      i := i + 1;
    }
    assert rules[..i] == rules;
    m := Merged(kinds, requireMention, hasRule);
  }

  method Union(kinds: seq<nat>, more: seq<nat>) returns (r: seq<nat>)
    ensures r == AddKinds(kinds, more)
  {
    r := kinds;
    var i := 0;
    while i < |more|
      invariant 0 <= i <= |more| && r == AddKinds(kinds, more[..i])
    {
      assert more[..i + 1][..i] == more[..i];
      if more[i] !in r {
        r := r + [more[i]];
      }
      i := i + 1;
    }
    assert more[..i] == more;
  }

  /** A channel that appears while running. */
  method ResolveDynamicChannelFilter(ids: Ids, c: Config, channel: Uuid, rules: seq<Rule>) returns (r: Option<ChannelFilter>)
    ensures r == FilterFor(ids, c, rules, channel)
  {
    if c.mode != FromConfig && c.channelsOverride.Some? && !Listed(ids, c.channelsOverride.value, channel) {
      return None;
    }
    match c.mode
    case Mentions => return Some(ChannelFilter(Some(DefaultKinds(c)), !c.noMentionFilter));
    case AllEvents => return Some(ChannelFilter(c.kindsOverride, false));
    case FromConfig =>
      var m := MergeRules(ids, rules, channel);
      return if m.hasRule then Some(ChannelFilter(m.kinds, m.requireMention)) else None;
  }

  /** Channels known at start-up that the operator did not exclude. */
  method TargetChannels(ids: Ids, c: Config, discovered: seq<Uuid>) returns (targets: seq<Uuid>)
    ensures forall ch :: ch in targets <==>
              ch in discovered && (c.channelsOverride.Some? ==> Listed(ids, c.channelsOverride.value, ch))
  {
    if c.channelsOverride.None? {
      return discovered;
    }
    var texts := c.channelsOverride.value;
    targets := [];
    var i := 0;
    while i < |texts|
      invariant 0 <= i <= |texts|
      invariant forall ch :: ch in targets <==>
                  ch in discovered && exists k | 0 <= k < i :: ids.parse(texts[k]) == Some(ch)
    {
      var id := ids.parse(texts[i]);
      if id.Some? && id.value in discovered {
        targets := targets + [id.value];
      }
      i := i + 1;
    }
  }

  /**
   All channels known at start-up. Every mode gives each discovered channel the
   filter it would get if it appeared while running.
   */
  method ResolveChannelFilters(ids: Ids, c: Config, discovered: seq<Uuid>, rules: seq<Rule>) returns (m: map<Uuid, ChannelFilter>)
    ensures forall ch :: ch in m <==> ch in discovered && FilterFor(ids, c, rules, ch).Some?
    ensures forall ch | ch in m :: Some(m[ch]) == FilterFor(ids, c, rules, ch)
  {
    var targets := TargetChannels(ids, c, discovered);
    var channels := if c.mode == FromConfig then discovered else targets;
    m := map[];
    var i := 0;
    while i < |channels|
      invariant 0 <= i <= |channels|
      invariant forall ch :: ch in m <==> ch in channels[..i] && FilterFor(ids, c, rules, ch).Some?
      invariant forall ch | ch in m :: Some(m[ch]) == FilterFor(ids, c, rules, ch)
    {
      var ch := channels[i];
      assert channels[..i + 1] == channels[..i] + [ch];
      match c.mode {
        case Mentions =>
          m := m[ch := ChannelFilter(Some(DefaultKinds(c)), !c.noMentionFilter)];
        case AllEvents =>
          m := m[ch := ChannelFilter(c.kindsOverride, false)];
        case FromConfig =>
          var merged := MergeRules(ids, rules, ch);
          if merged.hasRule {
            m := m[ch := ChannelFilter(merged.kinds, merged.requireMention)];
          }
      }
      i := i + 1;
    }
    assert channels[..i] == channels;
  }

  // ------------------------------------------------------------ over-approximation

  /** What the relay lets through for a channel subscription. */
  predicate Passes(f: ChannelFilter, e: Event, agent: string) {
    && (f.kinds.Some? ==> e.kind in f.kinds.value)
    && (f.requireMention ==> Mentioned(e, agent))
  }

  lemma {:induction false} AddKindsMeaning(kinds: seq<nat>, more: seq<nat>, k: nat)
    ensures k in AddKinds(kinds, more) <==> k in kinds || k in more
  {
    if more != [] {
      AddKindsMeaning(kinds, more[..|more| - 1], k);
      assert more == more[..|more| - 1] + [more[|more| - 1]];
    }
  }

  predicate NoRepeats(s: seq<nat>) {
    forall i, k | 0 <= i < k < |s| :: s[i] != s[k]
  }

  lemma {:induction false} AddKindsNoRepeats(kinds: seq<nat>, more: seq<nat>)
    requires NoRepeats(kinds)
    ensures NoRepeats(AddKinds(kinds, more))
  {
    if more != [] { AddKindsNoRepeats(kinds, more[..|more| - 1]); }
  }

  /** Some applicable rule among the first `n`. */
  ghost predicate SomeRule(ids: Ids, rules: seq<Rule>, channel: Uuid, good: Rule -> bool) {
    exists i | 0 <= i < |rules| :: Applies(ids, rules[i], channel) && good(rules[i])
  }

  lemma SomeRuleNext(ids: Ids, rules: seq<Rule>, channel: Uuid, good: Rule -> bool)
    requires rules != []
    ensures var front, last := rules[..|rules| - 1], rules[|rules| - 1];
            SomeRule(ids, rules, channel, good) <==>
            SomeRule(ids, front, channel, good) || (Applies(ids, last, channel) && good(last))
  {
    var front := rules[..|rules| - 1];
    if SomeRule(ids, front, channel, good) {
      var i :| 0 <= i < |front| && Applies(ids, front[i], channel) && good(front[i]);
      assert rules[i] == front[i];
    }
  }

  /**
   The merged filter, exactly: a wildcard when some applicable rule has one,
   else the union of the applicable rules' kinds without repeats; a mention is
   required when every applicable rule requires it.
   */
  lemma {:induction false} MergeMeaning(ids: Ids, rules: seq<Rule>, channel: Uuid, k: nat)
    ensures var m := MergeAll(ids, rules, channel);
            && (m.hasRule <==> SomeRule(ids, rules, channel, (r: Rule) => true))
            && (m.kinds.None? <==> SomeRule(ids, rules, channel, (r: Rule) => r.kinds == []))
            && (m.kinds.Some? ==> NoRepeats(m.kinds.value))
            && (m.kinds.Some? ==> (k in m.kinds.value <==> SomeRule(ids, rules, channel, (r: Rule) => k in r.kinds)))
            && (!m.requireMention <==> SomeRule(ids, rules, channel, (r: Rule) => !r.requireMention))
  {
    if rules != [] {
      var front, last := rules[..|rules| - 1], rules[|rules| - 1];
      MergeMeaning(ids, front, channel, k);
      SomeRuleNext(ids, rules, channel, (r: Rule) => true);
      SomeRuleNext(ids, rules, channel, (r: Rule) => r.kinds == []);
      SomeRuleNext(ids, rules, channel, (r: Rule) => k in r.kinds);
      SomeRuleNext(ids, rules, channel, (r: Rule) => !r.requireMention);
      var m := MergeAll(ids, front, channel);
      if m.kinds.Some? {
        AddKindsMeaning(m.kinds.value, last.kinds, k);
        AddKindsNoRepeats(m.kinds.value, last.kinds);
      }
    }
  }

  /** The rule lists the channel, but never as it prints. */
  predicate Misspelled(ids: Ids, rule: Rule, channel: Uuid) {
    rule.channels.List? && Listed(ids, rule.channels.channels, channel) && ids.show(channel) !in rule.channels.channels
  }

  /** The resolver counts a rule as applicable exactly where the matcher has it in scope, or where it is misspelled. */
  lemma AppliesIff(ids: Ids, rule: Rule, channel: Uuid)
    requires RoundTrips(ids)
    ensures Applies(ids, rule, channel) <==> InScope(ids, rule.channels, channel) || Misspelled(ids, rule, channel)
  {
    if rule.channels.List? && ids.show(channel) in rule.channels.channels {
      var i :| 0 <= i < |rule.channels.channels| && rule.channels.channels[i] == ids.show(channel);
      assert ids.parse(rule.channels.channels[i]) == Some(channel);
    }
  }

  /**
   The relay filter over-approximates the matcher: an event that some rule
   admits passes the filter merged for its channel.
   */
  lemma MergeCoversMatcher(ids: Ids, c: Config, rules: seq<Rule>, channel: Uuid, e: Event, agent: string, i: nat)
    requires RoundTrips(ids) && c.mode == FromConfig
    requires i < |rules| && Admits(ids, rules[i], channel, e, agent)
    ensures FilterFor(ids, c, rules, channel).Some? && Passes(FilterFor(ids, c, rules, channel).value, e, agent)
  {
    AppliesIff(ids, rules[i], channel);
    MergeMeaning(ids, rules, channel, e.kind);
    var r := rules[i];
    assert SomeRule(ids, rules, channel, (r: Rule) => true);
    if r.kinds == [] {
      assert SomeRule(ids, rules, channel, (r: Rule) => r.kinds == []);
    } else {
      assert SomeRule(ids, rules, channel, (r: Rule) => e.kind in r.kinds);
    }
    if !r.requireMention {
      assert SomeRule(ids, rules, channel, (r: Rule) => !r.requireMention);
    }
  }

  predicate KindOk(rule: Rule, e: Event) {
    rule.kinds != [] ==> e.kind in rule.kinds
  }

  /** The merged filter lets an event through. */
  predicate Delivered(ids: Ids, c: Config, rules: seq<Rule>, channel: Uuid, e: Event, agent: string) {
    var f := FilterFor(ids, c, rules, channel);
    f.Some? && Passes(f.value, e, agent)
  }

  ghost predicate NoneAdmits(ids: Ids, rules: seq<Rule>, channel: Uuid, e: Event, agent: string) {
    forall i | 0 <= i < |rules| :: !Admits(ids, rules[i], channel, e, agent)
  }

  lemma SomeKind(ids: Ids, rules: seq<Rule>, channel: Uuid, e: Event)
    ensures SomeRule(ids, rules, channel, r => KindOk(r, e)) <==>
            || SomeRule(ids, rules, channel, (r: Rule) => r.kinds == [])
            || SomeRule(ids, rules, channel, (r: Rule) => e.kind in r.kinds)
  {
    if SomeRule(ids, rules, channel, r => KindOk(r, e)) {
      var i :| 0 <= i < |rules| && Applies(ids, rules[i], channel) && KindOk(rules[i], e);
      if rules[i].kinds != [] {
        assert Applies(ids, rules[i], channel) && e.kind in rules[i].kinds;
      }
    }
  }

  /**
   The merged filter passes an event exactly if some applicable rule allows its
   kind, and it mentions the agent or some applicable rule, maybe another one,
   asks for no mention.
   */
  lemma PassesIff(ids: Ids, c: Config, rules: seq<Rule>, channel: Uuid, e: Event, agent: string)
    requires c.mode == FromConfig
    ensures Delivered(ids, c, rules, channel, e, agent) <==>
            && SomeRule(ids, rules, channel, r => KindOk(r, e))
            && (Mentioned(e, agent) || SomeRule(ids, rules, channel, (r: Rule) => !r.requireMention))
  {
    MergeMeaning(ids, rules, channel, e.kind);
    SomeKind(ids, rules, channel, e);
    if SomeRule(ids, rules, channel, r => KindOk(r, e)) {
      assert SomeRule(ids, rules, channel, (r: Rule) => true);
    }
  }

  /**
   The filter passes an event that no rule admits exactly if, besides, every
   applicable rule that allows its kind is misspelled, or misses a mention.
   */
  lemma PassesInVain(ids: Ids, c: Config, rules: seq<Rule>, channel: Uuid, e: Event, agent: string)
    requires RoundTrips(ids) && c.mode == FromConfig
    ensures Delivered(ids, c, rules, channel, e, agent) && NoneAdmits(ids, rules, channel, e, agent) <==>
            && SomeRule(ids, rules, channel, r => KindOk(r, e))
            && (Mentioned(e, agent) || SomeRule(ids, rules, channel, (r: Rule) => !r.requireMention))
            && forall i | 0 <= i < |rules| && Applies(ids, rules[i], channel) && KindOk(rules[i], e) ::
                 Misspelled(ids, rules[i], channel) || (rules[i].requireMention && !Mentioned(e, agent))
  {
    PassesIff(ids, c, rules, channel, e, agent);
    forall i | 0 <= i < |rules|
      ensures Applies(ids, rules[i], channel) <==>
              InScope(ids, rules[i].channels, channel) || Misspelled(ids, rules[i], channel)
    {
      AppliesIff(ids, rules[i], channel);
    }
  }

  /**
   With ids spelled as they print, that leaves one way: the event mentions nobody,
   and the kind comes from one rule while the waiver of the mention comes from another.
   */
  lemma PassesInVainWhenSpelled(ids: Ids, c: Config, rules: seq<Rule>, channel: Uuid, e: Event, agent: string)
    requires RoundTrips(ids) && c.mode == FromConfig
    requires forall i | 0 <= i < |rules| :: !Misspelled(ids, rules[i], channel)
    ensures Delivered(ids, c, rules, channel, e, agent) && NoneAdmits(ids, rules, channel, e, agent) <==>
            && !Mentioned(e, agent)
            && SomeRule(ids, rules, channel, r => KindOk(r, e))
            && SomeRule(ids, rules, channel, (r: Rule) => !r.requireMention)
            && !SomeRule(ids, rules, channel, (r: Rule) => KindOk(r, e) && !r.requireMention)
  {
    PassesInVain(ids, c, rules, channel, e, agent);
  }

  /**
   The converse fails for spellings: a rule that lists a channel only under
   texts other than its printed id subscribes to the channel, yet the matcher
   admits no event of that channel by it.
   */
  lemma OtherSpellingIsDead(ids: Ids, c: Config, rule: Rule, channel: Uuid)
    requires c.mode == FromConfig && Misspelled(ids, rule, channel)
    ensures FilterFor(ids, c, [rule], channel).Some?
    ensures forall e, agent :: !Admits(ids, rule, channel, e, agent)
  {
    assert [rule][..0] == [];
    assert MergeAll(ids, [rule], channel) == MergeOne(ids, MergeAll(ids, [], channel), rule, channel);
  }
}
