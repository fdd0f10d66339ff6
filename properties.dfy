/**
 * What the dispatch loop of xccdf2json guarantees about the document it builds,
 * stated over the functions of module Xccdf.
 */
module Properties {
  import opened Xccdf

  // ---------------------------------------------------------------------------
  // What one turn of the loop does to each part of the state
  // ---------------------------------------------------------------------------

  /** The event at `p` opens a Rule whose sub-scan closes and whose fields are all found. */
  predicate RuleCompletes(events: seq<Event>, p: nat)
    requires p <= |events|
  {
    p < |events| && events[p].Start? && events[p].elem.tag == Rule
    && RuleEnd(events, p + 1).Some? && RuleRecord(events[p].elem).Some?
  }

  /** The record a rule-result start at `p` begins with: its attributes without `time`. */
  function ResultSeed(e: Element): Dict {
    AttribJson(e) - {"time"}
  }

  /** The event at `p` opens a rule-result that has `time` and whose sub-scan closes. */
  predicate ResultCompletes(events: seq<Event>, p: nat)
    requires p <= |events|
  {
    p < |events| && events[p].Start? && events[p].elem.tag == RuleResult
    && "time" in AttribJson(events[p].elem)
    && ResultScan(events, p + 1, ResultSeed(events[p].elem)).Some?
  }

  /** The event at `p` opens a Profile that has an `id`. */
  predicate ProfileCompletes(events: seq<Event>, p: nat)
    requires p <= |events|
  {
    p < |events| && events[p].Start? && events[p].elem.tag == Profile && "id" in Attrib(events[p].elem)
  }

  /** One turn changes `rules` only by appending the record of a completed Rule. */
  lemma StepRules(events: seq<Event>, p: nat, st: State)
    requires p <= |events|
    ensures Step(events, p, st).st.rules ==
      if RuleCompletes(events, p) then st.rules + [RuleRecord(events[p].elem).value] else st.rules
    ensures RuleCompletes(events, p) ==> Step(events, p, st).Continue?
  {
    if !(p < |events| && events[p].Start? && events[p].elem.tag == Rule) {
      StepKeepsRules(events, p, st);
    } else if RuleCompletes(events, p) {
      var rule := RuleRecord(events[p].elem).value;
      var q := RuleEnd(events, p + 1).value;
      assert Step(events, p, st) == Continue(st.(rules := st.rules + [rule]), q);
    } else {
      assert Step(events, p, st).st == st;
    }
  }

  lemma StepKeepsRules(events: seq<Event>, p: nat, st: State)
    requires p <= |events| && !(p < |events| && events[p].Start? && events[p].elem.tag == Rule)
    ensures Step(events, p, st).st.rules == st.rules
  {
  }

  /**
   * One turn changes `results` only by appending the record of a completed
   * rule-result: its attributes without `time`, with the last `result` and
   * `ident` texts of its sub-scan.
   */
  lemma StepResults(events: seq<Event>, p: nat, st: State)
    requires p <= |events|
    ensures Step(events, p, st).st.results ==
      if ResultCompletes(events, p) then st.results + [ResultRecord(events, p)] else st.results
    ensures ResultCompletes(events, p) ==> Step(events, p, st).Continue?
  {
    if ResultCompletes(events, p) {
      ResultScanGivesRecord(events, p);
      var seed := ResultSeed(events[p].elem);
      var r := ResultScan(events, p + 1, seed).value;
      assert Step(events, p, st) == Continue(st.(results := st.results + [r.1]), r.0);
    } else {
      assert Step(events, p, st).st.results == st.results;
    }
  }

  lemma ResultScanGivesRecord(events: seq<Event>, p: nat)
    requires p <= |events| && ResultCompletes(events, p)
    ensures ResultScan(events, p + 1, ResultSeed(events[p].elem)).value.1 == ResultRecord(events, p)
  {
    var seed := ResultSeed(events[p].elem);
    ResultScanLastWins(events, p + 1, seed);
  }

  /** One turn changes `profiles` only by (re)binding the id of a Profile to its selections. */
  lemma StepProfiles(events: seq<Event>, p: nat, st: State)
    requires p <= |events|
    ensures Step(events, p, st).st.profiles ==
      if ProfileCompletes(events, p)
      then st.profiles[Attrib(events[p].elem)["id"] := Selections(events[p].elem.children)]
      else st.profiles
  {
  }

  /**
   * Only a TestResult or score start changes `benchmark`; every other event,
   * start or end, that is not a Rule or rule-result start moves on by one
   * position and changes nothing.
   */
  lemma StepOthers(events: seq<Event>, p: nat, st: State)
    requires p <= |events|
    ensures Step(events, p, st).st.benchmark != st.benchmark ==>
      p < |events| && events[p].Start? && events[p].elem.tag in {TestResult, Score}
    ensures p < |events| && (events[p].End? || events[p].elem.tag !in {Benchmark, TestResult, Profile, Rule, Score, RuleResult}) ==>
      Step(events, p, st) == Continue(st, p + 1)
  {
  }

  /**
   * A Rule start that completes resumes the loop just after the first end event
   * tagged Rule: nothing in between is dispatched.  One whose sub-scan closes
   * but whose record lookup fails (missing `id` or `severity`, or a missing
   * title, description or rationale child) stops the loop just after that end
   * event with the state unchanged.  One whose stream runs out first stops the
   * loop at the end of the stream with the state unchanged.
   */
  lemma RuleStepSkipsBody(events: seq<Event>, p: nat, st: State)
    requires p < |events| && events[p].Start? && events[p].elem.tag == Rule
    ensures RuleCompletes(events, p) ==> Step(events, p, st).Continue?
    ensures RuleCompletes(events, p) ==> Step(events, p, st).pos == RuleEnd(events, p + 1).value
    ensures RuleEnd(events, p + 1).Some? && RuleRecord(events[p].elem).None? ==>
      Step(events, p, st) == Halt(st, RuleEnd(events, p + 1).value)
    ensures RuleEnd(events, p + 1).None? ==> Step(events, p, st) == Halt(st, |events|)
  {
  }

  /**
   * The record of a fully scanned Rule exists exactly when `id`, `severity` and
   * the title, description and rationale children are all present; it holds
   * exactly the five keys, each taken from the element.
   */
  lemma RuleRecordDefined(e: Element)
    ensures RuleRecord(e).Some? <==>
      "id" in Attrib(e) && "severity" in Attrib(e)
      && Find(e.children, Title).Some? && Find(e.children, Description).Some? && Find(e.children, Rationale).Some?
  {
  }

  lemma RuleRecordFields(e: Element)
    requires RuleRecord(e).Some?
    ensures var r := RuleRecord(e).value;
      && r.Keys == {"id", "severity", "check", "recommendation", "justification"}
      && r["id"] == Str(Attrib(e)["id"]) && r["severity"] == Str(Attrib(e)["severity"])
      && r["check"] == TextOf(Find(e.children, Title).value)
      && r["recommendation"] == Str(Find(e.children, Description).value.allText)
      && r["justification"] == Str(Find(e.children, Rationale).value.allText)
  {
    RuleRecordDefined(e);
    var id, severity := Str(Attrib(e)["id"]), Str(Attrib(e)["severity"]);
    var check := TextOf(Find(e.children, Title).value);
    var recommendation := Str(Find(e.children, Description).value.allText);
    var justification := Str(Find(e.children, Rationale).value.allText);
    assert RuleRecord(e).value == map[
      "id" := id, "severity" := severity, "check" := check,
      "recommendation" := recommendation, "justification" := justification];
    RuleEntries(id, severity, check, recommendation, justification);
  }

  /** The five-key mapping a rule record is built as. */
  lemma RuleEntries(id: Json, severity: Json, check: Json, recommendation: Json, justification: Json)
    ensures var r := map[
      "id" := id, "severity" := severity, "check" := check,
      "recommendation" := recommendation, "justification" := justification];
      && r.Keys == {"id", "severity", "check", "recommendation", "justification"}
      && r["id"] == id && r["severity"] == severity && r["check"] == check
      && r["recommendation"] == recommendation && r["justification"] == justification
  {
  }

  // ---------------------------------------------------------------------------
  // TestResult, Benchmark and Profile starts
  // ---------------------------------------------------------------------------

  /**
   * A TestResult start replaces the benchmark mapping with the one built from
   * the element alone, whatever it held before (a `score` seen earlier is lost),
   * and the loop goes on exactly when that build got through every lookup.
   */
  lemma TestResultReplacesBenchmark(events: seq<Event>, p: nat, st: State)
    requires p < |events| && events[p].Start? && events[p].elem.tag == TestResult
    ensures Step(events, p, st).st == st.(benchmark := InitBenchmark(events[p].elem).0)
    ensures Step(events, p, st).Continue? == InitBenchmark(events[p].elem).1
    ensures Step(events, p, st).pos == p + 1
  {
  }

  /**
   * The build of a TestResult's mapping gets through exactly when `id`, the
   * target, identity and profile children and the profile's `idref` are all
   * present.  When an attribute `id` is missing it stops with all the attributes.
   */
  lemma InitBenchmarkCompletes(e: Element)
    ensures InitBenchmark(e).1 <==>
      && "id" in Attrib(e)
      && Find(e.children, Target).Some? && Find(e.children, Identity).Some?
      && Find(e.children, ProfileRef).Some? && "idref" in Attrib(Find(e.children, ProfileRef).value)
    ensures "id" !in Attrib(e) ==> InitBenchmark(e).0 == AsJson(Attrib(e))
  {
    AttribJsonEntries(e);
  }

  /**
   * A complete build holds the attributes without `id` plus `hostname`, `user`
   * and `profile`, taken from the target and identity texts and the profile's `idref`.
   */
  lemma InitBenchmarkFields(e: Element)
    requires InitBenchmark(e).1
    ensures var b := InitBenchmark(e).0;
      && b.Keys == Attrib(e).Keys - {"id"} + {"hostname", "user", "profile"}
      && b["hostname"] == TextOf(Find(e.children, Target).value)
      && b["user"] == TextOf(Find(e.children, Identity).value)
      && b["profile"] == Str(Attrib(Find(e.children, ProfileRef).value)["idref"])
      && (forall k :: k in Attrib(e) && k !in {"id", "hostname", "user", "profile"} ==> b[k] == Str(Attrib(e)[k]))
  {
    InitBenchmarkCompletes(e);
    AttribJsonEntries(e);
    var hostname := TextOf(Find(e.children, Target).value);
    var user := TextOf(Find(e.children, Identity).value);
    var profile := Str(Attrib(Find(e.children, ProfileRef).value)["idref"]);
    assert InitBenchmark(e).0 == (AsJson(Attrib(e)) - {"id"})["hostname" := hostname]["user" := user]["profile" := profile];
    BenchmarkEntries(Attrib(e), hostname, user, profile);
  }

  /** The mapping a complete TestResult build produces, from the attributes and the three looked-up values. */
  lemma BenchmarkEntries(attrs: map<string, string>, hostname: Json, user: Json, profile: Json)
    ensures var b := (AsJson(attrs) - {"id"})["hostname" := hostname]["user" := user]["profile" := profile];
      && b.Keys == attrs.Keys - {"id"} + {"hostname", "user", "profile"}
      && b["hostname"] == hostname && b["user"] == user && b["profile"] == profile
      && (forall k :: k in attrs && k !in {"id", "hostname", "user", "profile"} ==> b[k] == Str(attrs[k]))
  {
  }

  /** A score start sets `score` to the element's text and keeps every other key. */
  lemma ScoreSetsScore(events: seq<Event>, p: nat, st: State)
    requires p < |events| && events[p].Start? && events[p].elem.tag == Score
    ensures Step(events, p, st) == Continue(st.(benchmark := st.benchmark["score" := TextOf(events[p].elem)]), p + 1)
    ensures Step(events, p, st).st.benchmark.Keys == st.benchmark.Keys + {"score"}
  {
  }

  /** A Benchmark start passes exactly when its default namespace is the XCCDF 1.2 URI. */
  lemma BenchmarkNamespace(events: seq<Event>, p: nat, st: State)
    requires p < |events| && events[p].Start? && events[p].elem.tag == Benchmark
    ensures Step(events, p, st) ==
      if events[p].elem.nsDefault == Some(Xmlns) then Continue(st, p + 1) else Halt(st, p + 1)
  {
  }

  /** Number of `select` elements in a child list. */
  function CountSelect(cs: seq<Element>): nat {
    if cs == [] then 0 else (if cs[0].tag == Select then 1 else 0) + CountSelect(cs[1..])
  }

  lemma {:induction false} CountSelectSnoc(cs: seq<Element>, c: Element)
    ensures CountSelect(cs + [c]) == CountSelect(cs) + (if c.tag == Select then 1 else 0)
    decreases |cs|
  {
    if cs != [] {
      assert (cs + [c])[1..] == cs[1..] + [c];
      CountSelectSnoc(cs[1..], c);
    }
  }

  /**
   * A Profile's selections hold one attribute map per `select` child and no
   * other entry, in child order: the k-th select child's map sits at the
   * position given by the number of select children before it.
   */
  lemma {:induction false} SelectionsInChildOrder(cs: seq<Element>)
    ensures |Selections(cs)| == CountSelect(cs)
    ensures forall k :: 0 <= k < |cs| && cs[k].tag == Select ==>
      CountSelect(cs[..k]) < |Selections(cs)| && Selections(cs)[CountSelect(cs[..k])] == Attrib(cs[k])
    decreases |cs|
  {
    if cs != [] {
      var init, last := cs[..|cs| - 1], cs[|cs| - 1];
      assert cs == init + [last];
      SelectionsInChildOrder(init);
      CountSelectSnoc(init, last);
      forall k | 0 <= k < |cs| && cs[k].tag == Select
        ensures CountSelect(cs[..k]) < |Selections(cs)| && Selections(cs)[CountSelect(cs[..k])] == Attrib(cs[k])
      {
        if k < |init| {
          assert cs[..k] == init[..k];
          assert init[k] == cs[k];
        } else {
          assert cs[..k] == init;
        }
      }
    }
  }

  // ---------------------------------------------------------------------------
  // The rule-result sub-scan
  // ---------------------------------------------------------------------------

  /** Text of the last start event tagged `t` in `evs`, if any. */
  function LastText(evs: seq<Event>, t: Tag): Option<Json> {
    if evs == [] then None
    else
      var e := evs[|evs| - 1];
      if e.Start? && e.elem.tag == t then Some(TextOf(e.elem)) else LastText(evs[..|evs| - 1], t)
  }

  function Overlay(d: Dict, key: string, v: Option<Json>): Dict {
    if v.Some? then d[key := v.value] else d
  }

  /** `rr` with `result` and `ident` bound to the last such texts in `evs`. */
  function WithLastSeen(rr: Dict, evs: seq<Event>): Dict {
    Overlay(Overlay(rr, "result", LastText(evs, Result)), "ident", LastText(evs, Ident))
  }

  lemma AbsorbExtends(rr: Dict, seg: seq<Event>, e: Event)
    ensures Absorb(WithLastSeen(rr, seg), e) == WithLastSeen(rr, seg + [e])
  {
    assert (seg + [e])[..|seg|] == seg;
  }

  lemma {:induction false} ResultScanFrom(events: seq<Event>, j0: nat, j: nat, rr: Dict)
    requires j0 <= j <= |events|
    ensures ResultScan(events, j, WithLastSeen(rr, events[j0..j])).Some? ==>
      var (q, r) := ResultScan(events, j, WithLastSeen(rr, events[j0..j])).value;
      j0 < q && r == WithLastSeen(rr, events[j0..q - 1])
    decreases |events| - j
  {
    if j < |events| && !IsEnd(events[j], RuleResult) {
      AbsorbExtends(rr, events[j0..j], events[j]);
      assert events[j0..j] + [events[j]] == events[j0..j + 1];
      ResultScanFrom(events, j0, j + 1, rr);
    }
  }

  /**
   * Within one rule-result, the record stored is the record it started with,
   * with `result` and `ident` bound to the text of the LAST result and ident
   * start before the closing end event.
   */
  lemma ResultScanLastWins(events: seq<Event>, j: nat, rr: Dict)
    requires j <= |events| && ResultScan(events, j, rr).Some?
    ensures ResultScan(events, j, rr).value.1 == WithLastSeen(rr, events[j..ResultScan(events, j, rr).value.0 - 1])
  {
    assert events[j..j] == [];
    ResultScanFrom(events, j, j, rr);
  }

  /**
   * Keys the record had are kept; `result` and `ident` appear only if such a
   * start was seen or the record already had them.
   */
  lemma WithLastSeenKeys(rr: Dict, evs: seq<Event>)
    ensures WithLastSeen(rr, evs).Keys == rr.Keys
      + (if LastText(evs, Result).Some? then {"result"} else {})
      + (if LastText(evs, Ident).Some? then {"ident"} else {})
    ensures forall k :: k in rr && k !in {"result", "ident"} ==> WithLastSeen(rr, evs)[k] == rr[k]
  {
  }

  /**
   * The record a completed rule-result at `p` contributes, stated without the
   * scan: the attributes without `time`, with the last `result` and `ident`
   * texts met before its closing end event.
   */
  function ResultRecord(events: seq<Event>, p: nat): Dict
    requires p <= |events| && ResultCompletes(events, p)
  {
    var q := ResultScan(events, p + 1, ResultSeed(events[p].elem)).value.0;
    WithLastSeen(ResultSeed(events[p].elem), events[p + 1..q - 1])
  }

  // ---------------------------------------------------------------------------
  // The whole loop
  // ---------------------------------------------------------------------------

  /**
   * Records already collected are never changed: the loop only appends to
   * `rules` and `results`, and never removes a profile id.
   */
  lemma {:induction false} RunKeepsCollected(events: seq<Event>, p: nat, st: State)
    requires p <= |events|
    ensures var r := Run(events, p, st).st;
      st.rules <= r.rules && st.results <= r.results && st.profiles.Keys <= r.profiles.Keys
    decreases |events| - p
  {
    StepRules(events, p, st);
    StepResults(events, p, st);
    StepProfiles(events, p, st);
    var n := Step(events, p, st);
    if n.Continue? {
      RunKeepsCollected(events, n.pos, n.st);
      assert Run(events, p, st) == Run(events, n.pos, n.st);
    } else {
      assert Run(events, p, st) == n;
    }
  }

  /**
   * `entries` are, one for one, the records of completed Rule starts at the
   * strictly increasing positions `idx`, all at or after `lo`.
   */
  ghost predicate RulesFrom(events: seq<Event>, lo: nat, idx: seq<nat>, entries: seq<Dict>)
    decreases |idx|
  {
    if idx == [] then entries == []
    else
      && entries != []
      && lo <= idx[0] < |events| && RuleCompletes(events, idx[0])
      && entries[0] == RuleRecord(events[idx[0]].elem).value
      && RulesFrom(events, idx[0] + 1, idx[1..], entries[1..])
  }

  /**
   * `rules` gets one entry per Rule start the loop dispatches that completes,
   * in document order: the entries appended from `p` on come from Rule starts
   * at strictly increasing positions, each closed by an end event tagged Rule,
   * and each entry is the record of its element.
   */
  lemma {:induction false} RulesInDocumentOrder(events: seq<Event>, p: nat, st: State)
    returns (idx: seq<nat>, added: seq<Dict>)
    requires p <= |events|
    ensures Run(events, p, st).st.rules == st.rules + added
    ensures RulesFrom(events, p, idx, added)
    decreases |events| - p
  {
    var halted, q, st' := RunRulesTurn(events, p, st);
    if halted {
      idx, added := [], [];
    } else {
      var rest, later := RulesInDocumentOrder(events, q, st');
      if RuleCompletes(events, p) {
        var x := RuleRecord(events[p].elem).value;
        RulesFromCons(events, p, q, rest, x, later);
        AppendAssoc(st.rules, [x], later);
        idx, added := [p] + rest, [x] + later;
      } else {
        RulesFromLower(events, q, p, rest, later);
        idx, added := rest, later;
      }
    }
  }

  lemma AppendAssoc(a: seq<Dict>, b: seq<Dict>, c: seq<Dict>)
    ensures (a + b) + c == a + (b + c)
  {
  }

  /** One turn of the loop, as far as `rules` is concerned. */
  lemma RunRulesTurn(events: seq<Event>, p: nat, st: State) returns (halted: bool, q: nat, st': State)
    requires p <= |events|
    ensures halted ==> Run(events, p, st).st.rules == st.rules
    ensures !halted ==> p < q <= |events| && Run(events, p, st).st.rules == Run(events, q, st').st.rules
    ensures !halted ==>
      st'.rules == if RuleCompletes(events, p) then st.rules + [RuleRecord(events[p].elem).value] else st.rules
  {
    StepRules(events, p, st);
    var n := Step(events, p, st);
    halted, q, st' := n.Halt?, n.pos, n.st;
    if halted {
      assert Run(events, p, st) == n;
    } else {
      assert Run(events, p, st) == Run(events, q, st');
    }
  }

  lemma RulesFromCons(events: seq<Event>, p: nat, lo: nat, idx: seq<nat>, x: Dict, entries: seq<Dict>)
    requires p < lo && p < |events| && RuleCompletes(events, p) && x == RuleRecord(events[p].elem).value
    requires RulesFrom(events, lo, idx, entries)
    ensures RulesFrom(events, p, [p] + idx, [x] + entries)
  {
    assert ([p] + idx)[1..] == idx && ([x] + entries)[1..] == entries;
    RulesFromLower(events, lo, p + 1, idx, entries);
  }

  lemma RulesFromLower(events: seq<Event>, lo: nat, lo': nat, idx: seq<nat>, entries: seq<Dict>)
    requires lo' <= lo && RulesFrom(events, lo, idx, entries)
    ensures RulesFrom(events, lo', idx, entries)
  {
  }

  /**
   * `entries` are, one for one, the records of completed rule-result starts at
   * the strictly increasing positions `idx`, all at or after `lo`.
   */
  ghost predicate ResultsFrom(events: seq<Event>, lo: nat, idx: seq<nat>, entries: seq<Dict>)
    decreases |idx|
  {
    if idx == [] then entries == []
    else
      && entries != []
      && lo <= idx[0] < |events| && ResultCompletes(events, idx[0])
      && entries[0] == ResultRecord(events, idx[0])
      && ResultsFrom(events, idx[0] + 1, idx[1..], entries[1..])
  }

  lemma ResultsFromCons(events: seq<Event>, p: nat, lo: nat, idx: seq<nat>, x: Dict, entries: seq<Dict>)
    requires p < lo && p < |events| && ResultCompletes(events, p) && x == ResultRecord(events, p)
    requires ResultsFrom(events, lo, idx, entries)
    ensures ResultsFrom(events, p, [p] + idx, [x] + entries)
  {
    assert ([p] + idx)[1..] == idx && ([x] + entries)[1..] == entries;
    ResultsFromLower(events, lo, p + 1, idx, entries);
  }

  lemma ResultsFromLower(events: seq<Event>, lo: nat, lo': nat, idx: seq<nat>, entries: seq<Dict>)
    requires lo' <= lo && ResultsFrom(events, lo, idx, entries)
    ensures ResultsFrom(events, lo', idx, entries)
  {
  }

  /**
   * `results` gets one entry per rule-result start the loop dispatches that
   * completes, in document order; each entry is the element's attributes
   * without `time`, with the last `result` and `ident` texts of its sub-scan.
   */
  lemma {:induction false} ResultsInDocumentOrder(events: seq<Event>, p: nat, st: State)
    returns (idx: seq<nat>, added: seq<Dict>)
    requires p <= |events|
    ensures Run(events, p, st).st.results == st.results + added
    ensures ResultsFrom(events, p, idx, added)
    decreases |events| - p
  {
    var halted, q, st' := RunResultsTurn(events, p, st);
    if halted {
      idx, added := [], [];
    } else {
      var rest, later := ResultsInDocumentOrder(events, q, st');
      if ResultCompletes(events, p) {
        var x := ResultRecord(events, p);
        ResultsFromCons(events, p, q, rest, x, later);
        AppendAssoc(st.results, [x], later);
        idx, added := [p] + rest, [x] + later;
      } else {
        ResultsFromLower(events, q, p, rest, later);
        idx, added := rest, later;
      }
    }
  }

  /** One turn of the loop, as far as `results` is concerned. */
  lemma RunResultsTurn(events: seq<Event>, p: nat, st: State) returns (halted: bool, q: nat, st': State)
    requires p <= |events|
    ensures halted ==> Run(events, p, st).st.results == st.results
    ensures !halted ==> p < q <= |events| && Run(events, p, st).st.results == Run(events, q, st').st.results
    ensures !halted ==>
      st'.results == if ResultCompletes(events, p) then st.results + [ResultRecord(events, p)] else st.results
  {
    StepResults(events, p, st);
    var n := Step(events, p, st);
    halted, q, st' := n.Halt?, n.pos, n.st;
    if halted {
      assert Run(events, p, st) == n;
    } else {
      assert Run(events, p, st) == Run(events, q, st');
    }
  }

  /** Rule records have exactly the five rule keys. */
  ghost predicate RulesShaped(rules: seq<Dict>) {
    forall r :: r in rules ==> r.Keys == {"id", "severity", "check", "recommendation", "justification"}
  }

  /** Result records have no `time` key. */
  ghost predicate ResultsShaped(results: seq<Dict>) {
    forall r :: r in results ==> "time" !in r
  }

  /** The invariant the loop keeps on the collections. */
  ghost predicate WellFormed(st: State) {
    RulesShaped(st.rules) && ResultsShaped(st.results)
  }

  lemma RulesShapedSnoc(rules: seq<Dict>, x: Dict)
    requires RulesShaped(rules) && x.Keys == {"id", "severity", "check", "recommendation", "justification"}
    ensures RulesShaped(rules + [x])
  {
  }

  lemma ResultsShapedSnoc(results: seq<Dict>, x: Dict)
    requires ResultsShaped(results) && "time" !in x
    ensures ResultsShaped(results + [x])
  {
  }

  lemma StepKeepsWellFormed(events: seq<Event>, p: nat, st: State)
    requires p <= |events| && WellFormed(st)
    ensures WellFormed(Step(events, p, st).st)
  {
    StepRules(events, p, st);
    StepResults(events, p, st);
    if RuleCompletes(events, p) {
      RuleRecordFields(events[p].elem);
      RulesShapedSnoc(st.rules, RuleRecord(events[p].elem).value);
    }
    if ResultCompletes(events, p) {
      ResultsShapedSnoc(st.results, ResultRecord(events, p));
    }
  }

  lemma {:induction false} RunKeepsWellFormed(events: seq<Event>, p: nat, st: State)
    requires p <= |events| && WellFormed(st)
    ensures WellFormed(Run(events, p, st).st)
    decreases |events| - p
  {
    StepKeepsWellFormed(events, p, st);
    var n := Step(events, p, st);
    if n.Continue? {
      RunKeepsWellFormed(events, n.pos, n.st);
    }
  }

  /**
   * Whatever the events, the document returned holds `profiles`, `results` and
   * `rules`; every `results` entry is an object without a `time` key and every
   * `rules` entry an object with exactly the five rule keys.
   */
  lemma DocumentShape(events: seq<Event>, p: nat)
    requires p <= |events|
    ensures var doc := GetJson(events, p);
      && "profiles" in doc && doc["profiles"].Obj?
      && "results" in doc && doc["results"].Arr?
      && "rules" in doc && doc["rules"].Arr?
      && (forall x :: x in doc["results"].items ==> x.Obj? && "time" !in x.fields)
      && (forall x :: x in doc["rules"].items ==>
            x.Obj? && x.fields.Keys == {"id", "severity", "check", "recommendation", "justification"})
  {
    RunKeepsWellFormed(events, p, Init);
    var st := Run(events, p, Init).st;
    var doc := GetJson(events, p);
    forall x | x in doc["results"].items ensures x.Obj? && "time" !in x.fields {
      var i :| 0 <= i < |doc["results"].items| && doc["results"].items[i] == x;
      assert st.results[i] in st.results;
    }
    forall x | x in doc["rules"].items
      ensures x.Obj? && x.fields.Keys == {"id", "severity", "check", "recommendation", "justification"}
    {
      var i :| 0 <= i < |doc["rules"].items| && doc["rules"].items[i] == x;
      assert st.rules[i] in st.rules;
    }
  }

  /**
   * When the stream ends inside a Rule or rule-result, the loop stops there:
   * the unfinished record is not appended and the collections are returned as
   * they were before that element started.
   */
  lemma TruncatedScanStops(events: seq<Event>, p: nat, st: State)
    requires p < |events| && events[p].Start?
    requires
      || (events[p].elem.tag == Rule && forall k :: p < k < |events| ==> !IsEnd(events[k], Rule))
      || (events[p].elem.tag == RuleResult && forall k :: p < k < |events| ==> !IsEnd(events[k], RuleResult))
    ensures Run(events, p, st).st == st
    ensures Attach(Run(events, p, st).st)["rules"] == Arr(Objects(st.rules))
    ensures Attach(Run(events, p, st).st)["results"] == Arr(Objects(st.results))
  {
    AttribJsonEntries(events[p].elem);
    if events[p].elem.tag == Rule {
      RuleEndFirst(events, p + 1);
    } else if "time" in Attrib(events[p].elem) {
      ResultScanFirst(events, p + 1, ResultSeed(events[p].elem));
    }
  }

  /**
   * Each failure stops the loop after the event that raised it and still
   * returns the collections built so far: a Benchmark without the XCCDF 1.2
   * default namespace, a Profile or TestResult without `id`, a TestResult
   * without target, identity or profile child, and a rule-result without `time`.
   */
  lemma FailureStopsWithCollections(events: seq<Event>, p: nat, st: State)
    requires p < |events| && events[p].Start?
    requires var e := events[p].elem;
      || (e.tag == Benchmark && e.nsDefault != Some(Xmlns))
      || (e.tag == Profile && "id" !in Attrib(e))
      || (e.tag == TestResult && ("id" !in Attrib(e) || Find(e.children, Target).None?
                                  || Find(e.children, Identity).None? || Find(e.children, ProfileRef).None?))
      || (e.tag == RuleResult && "time" !in Attrib(e))
    ensures Run(events, p, st).pos == p + 1
    ensures var r := Run(events, p, st).st;
      r.profiles == st.profiles && r.rules == st.rules && r.results == st.results
  {
    AttribJsonEntries(events[p].elem);
  }
}
