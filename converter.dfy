/**
 * The converter object of xccdf2json: it owns the parser's event iterator, whose
 * position is shared by the dispatch loop and the two sub-scans, and `GetJson`
 * advances it while building the benchmark mapping and the three collections.
 */
module Converter {
  import opened Xccdf

  class Xccdf2Json {
    /** The start/end events the parser yields for the input document. */
    const context: seq<Event>
    /** The iterator over `context`: the index of the next event it yields. */
    var cursor: nat
    const outputFile: Option<string>
    const encoding: string

    ghost predicate Valid()
      reads this
    {
      cursor <= |context|
    }

    constructor (events: seq<Event>, outputFile: Option<string> := None, encoding: string := "utf-8")
      ensures Valid()
      ensures context == events && cursor == 0
      ensures this.outputFile == outputFile && this.encoding == encoding
    {
      context := events;
      cursor := 0;
      this.outputFile := outputFile;
      this.encoding := encoding;
    }

    /**
     * `get_json`: dispatch events until the iterator is exhausted or a lookup,
     * the namespace assertion or a sub-scan fails, then attach the collections
     * to the benchmark mapping and return it whatever stopped the loop.
     */
    method GetJson() returns (doc: Dict)
      requires Valid()
      modifies this`cursor
      ensures Valid()
      ensures doc == Attach(Run(context, old(cursor), Init).st)
      ensures cursor == Run(context, old(cursor), Init).pos
    {
      var benchmark, profiles, rules, ruleresults := DispatchAll();
      // the finally block
      benchmark := benchmark["profiles" := ProfilesJson(profiles)];
      benchmark := benchmark["results" := Arr(Objects(ruleresults))];
      benchmark := benchmark["rules" := Arr(Objects(rules))];
      doc := benchmark;
    }

    /**
     * The `while True` loop of `get_json`, from empty collections: it returns
     * the benchmark mapping and the collections as they stood when the
     * iterator ran out or a branch raised.
     */
    method DispatchAll() returns (benchmark: Dict, profiles: map<string, seq<map<string, string>>>,
                                  rules: seq<Dict>, ruleresults: seq<Dict>)
      requires Valid()
      modifies this`cursor
      ensures Valid()
      ensures Run(context, old(cursor), Init) == Halt(State(benchmark, profiles, rules, ruleresults), cursor)
    {
      var st := Init;
      ghost var outcome := Run(context, cursor, Init);
      var stop := false;
      while !stop
        invariant cursor <= |context|
        invariant !stop ==> Run(context, cursor, st) == outcome
        invariant stop ==> outcome == Halt(st, cursor)
        decreases |context| - cursor, !stop
      {
        st, stop := Turn(st);
      }
      benchmark, profiles, rules, ruleresults := st.benchmark, st.profiles, st.rules, st.results;
    }

    /**
     * One pass of the loop body: take the next event from the iterator and, for
     * a start event, dispatch on its tag.  `stop` is true where the Python code
     * leaves the loop: the iterator's StopIteration or an exception a branch raised.
     */
    method Turn(st: State) returns (next: State, stop: bool)
      requires Valid()
      modifies this`cursor
      ensures Valid() && old(cursor) <= cursor
      ensures !stop ==> old(cursor) < cursor
      ensures Run(context, old(cursor), st) == if stop then Halt(next, cursor) else Run(context, cursor, next)
    {
      if cursor == |context| {
        return st, true;  // the iterator is exhausted
      }
      var event := context[cursor];
      cursor := cursor + 1;
      if event.Start? {
        next, stop := Dispatch(event.elem, st);
      } else {
        next, stop := st, false;
      }
    }

    /**
     * The branches of the dispatch loop for a start event whose element is
     * `root`, the event just taken from the iterator.  `stop` is true when the
     * branch raised: a failed lookup or assertion, or a sub-scan that ran out of
     * events; `next` is then the state as far as it had been built.
     */
    method Dispatch(root: Element, st: State) returns (next: State, stop: bool)
      requires Valid() && 0 < cursor && context[cursor - 1] == Start(root)
      modifies this`cursor
      ensures Valid()
      ensures Step(context, old(cursor) - 1, st) == if stop then Halt(next, cursor) else Continue(next, cursor)
    {
      next, stop := st, true;
      if root.tag == Benchmark {
        if root.nsDefault != Some(Xmlns) {
          return;  // no default namespace, or the assertion fails
        }
      } else if root.tag == TestResult {
        var benchmark := AttribJson(root);
        next := next.(benchmark := benchmark);
        if "id" !in benchmark {
          return;
        }
        benchmark := benchmark - {"id"};
        next := next.(benchmark := benchmark);
        var target := Find(root.children, Target);
        if target.None? {
          return;
        }
        benchmark := benchmark["hostname" := TextOf(target.value)];
        next := next.(benchmark := benchmark);
        var identity := Find(root.children, Identity);
        if identity.None? {
          return;
        }
        benchmark := benchmark["user" := TextOf(identity.value)];
        next := next.(benchmark := benchmark);
        var profile := Find(root.children, ProfileRef);
        if profile.None? || "idref" !in Attrib(profile.value) {
          return;
        }
        benchmark := benchmark["profile" := Str(Attrib(profile.value)["idref"])];
        next := next.(benchmark := benchmark);
      } else if root.tag == Profile {
        if "id" !in Attrib(root) {
          return;
        }
        var theId := Attrib(root)["id"];
        var profile: seq<map<string, string>> := [];
        for i := 0 to |root.children|
          invariant profile == Selections(root.children[..i])
        {
          var ch := root.children[i];
          assert root.children[..i + 1][..i] == root.children[..i];
          if ch.tag == Select {
            profile := profile + [Attrib(ch)];
          }
        }
        assert root.children[..|root.children|] == root.children;
        next := next.(profiles := next.profiles[theId := profile]);
      } else if root.tag == Rule {
        var closed := SkipRule();
        if !closed {
          return;  // exhausted inside the Rule element
        }
        var attrib := Attrib(root);
        if "id" !in attrib || "severity" !in attrib {
          return;
        }
        var title := Find(root.children, Title);
        var description := Find(root.children, Description);
        var rationale := Find(root.children, Rationale);
        if title.None? || description.None? || rationale.None? {
          return;
        }
        var rule := map[
          "id" := Str(attrib["id"]),
          "severity" := Str(attrib["severity"]),
          "check" := TextOf(title.value),
          "recommendation" := Str(description.value.allText),
          "justification" := Str(rationale.value.allText)];
        next := next.(rules := next.rules + [rule]);
      } else if root.tag == Score {
        next := next.(benchmark := next.benchmark["score" := TextOf(root)]);
      } else if root.tag == RuleResult {
        var ruleresult := AttribJson(root);
        if "time" !in ruleresult {
          return;
        }
        ruleresult := ruleresult - {"time"};
        var closed;
        closed, ruleresult := ScanRuleResult(ruleresult);
        if !closed {
          return;  // exhausted inside the rule-result element
        }
        next := next.(results := next.results + [ruleresult]);
      }
      stop := false;
    }

    /** The Rule sub-scan: consume events up to the first end event tagged Rule. */
    method SkipRule() returns (closed: bool)
      requires Valid()
      modifies this`cursor
      ensures Valid()
      ensures closed == RuleEnd(context, old(cursor)).Some?
      ensures cursor == if closed then RuleEnd(context, old(cursor)).value else |context|
    {
      while true
        invariant old(cursor) <= cursor <= |context|
        invariant RuleEnd(context, cursor) == RuleEnd(context, old(cursor))
        decreases |context| - cursor
      {
        if cursor == |context| {
          return false;
        }
        var child := context[cursor];
        cursor := cursor + 1;
        if child.End? && child.tag == Rule {
          return true;
        }
      }
    }

    /**
     * The rule-result sub-scan: consume events up to the first end event tagged
     * rule-result, recording the text of each result and ident start met.
     */
    method ScanRuleResult(first: Dict) returns (closed: bool, ruleresult: Dict)
      requires Valid()
      modifies this`cursor
      ensures Valid()
      ensures closed == ResultScan(context, old(cursor), first).Some?
      ensures closed ==> (cursor, ruleresult) == ResultScan(context, old(cursor), first).value
      ensures !closed ==> cursor == |context|
    {
      ruleresult := first;
      while true
        invariant old(cursor) <= cursor <= |context|
        invariant ResultScan(context, cursor, ruleresult) == ResultScan(context, old(cursor), first)
        decreases |context| - cursor
      {
        if cursor == |context| {
          return false, ruleresult;
        }
        var child := context[cursor];
        cursor := cursor + 1;
        if child.End? && child.tag == RuleResult {
          return true, ruleresult;
        }
        if child.Start? {
          if child.elem.tag == Result {
            ruleresult := ruleresult["result" := TextOf(child.elem)];
          } else if child.elem.tag == Ident {
            ruleresult := ruleresult["ident" := TextOf(child.elem)];
          }
        }
      }
    }
  }
}
