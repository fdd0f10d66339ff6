/**
 * The XCCDF result-document interpreter of xccdf2json, as functions.
 *
 * The XML parser is abstracted as a finite sequence of start/end events; each
 * start event carries the element it opens, with the attribute list, the default
 * namespace, the element's own text, the concatenation of its descendant text
 * and its direct children given as data.  `Step` is one turn of the outer
 * dispatch loop of `get_json`, `Run` repeats it until the stream is exhausted or
 * an exception would be raised, and `Attach` is the `finally` block.
 */
module Xccdf {

  /** The XCCDF 1.2 namespace URI, which the Benchmark root must declare as default. */
  const Xmlns: string := "http://checklists.nist.gov/xccdf/1.2"

  /**
   * Tag identities.  Each named constructor stands for `{Xmlns}local` with the
   * local name in the comment; `Other` is any qualified name that is none of them.
   * The first eleven are the tag constants of `Tags`; `Select` through
   * `Rationale` are the names the converter builds inline from the namespace.
   */
  datatype Tag =
    | Benchmark     // Benchmark
    | TestResult    // TestResult
    | RuleResult    // rule-result
    | Check         // check
    | CheckImport   // check-import
    | Result        // result
    | Score         // score
    | Ident         // ident
    | Profile       // Profile
    | Group         // Group
    | Rule          // Rule
    | Select        // select
    | Target        // target
    | Identity      // identity
    | ProfileRef    // profile
    | Title         // title
    | Description   // description
    | Rationale     // rationale
    | Other(qname: string)

  datatype Option<T> = None | Some(value: T)

  /**
   * An element as the parser exposes it: `attrib` is its attribute list in
   * document order, `nsDefault` the default namespace in scope at the element,
   * declared on it or on an ancestor (absent when there is none), `text` its leading text (absent when empty), `allText` the
   * concatenation of all its descendant text nodes, `children` its direct children.
   */
  datatype Element = Element(
    tag: Tag,
    attrib: seq<(string, string)>,
    nsDefault: Option<string>,
    text: Option<string>,
    allText: string,
    children: seq<Element>)

  datatype Event = Start(elem: Element) | End(tag: Tag)

  /** The generic value the converter builds and hands to the JSON renderer. */
  datatype Json = Null | Str(s: string) | Arr(items: seq<Json>) | Obj(fields: map<string, Json>)

  type Dict = map<string, Json>

  /** Attribute names of an attribute list. */
  function Names<V>(cur: seq<(string, V)>): set<string> {
    set i | 0 <= i < |cur| :: cur[i].0
  }

  /** True when the attribute at position `i` is the last one with its name. */
  predicate LastWithName<V>(cur: seq<(string, V)>, i: int)
    requires 0 <= i < |cur|
  {
    forall j :: i < j < |cur| ==> cur[j].0 != cur[i].0
  }

  /**
   * `_convert2dict`: a dictionary built from the attribute names zipped with the
   * attribute values, the later of two equal names winning.
   */
  function Convert2Dict<V>(cur: seq<(string, V)>): (r: map<string, V>)
    decreases |cur|
  {
    if cur == [] then map[]
    else Convert2Dict(cur[..|cur| - 1])[cur[|cur| - 1].0 := cur[|cur| - 1].1]
  }

  /** Every attribute name becomes a key and no other key appears. */
  lemma {:induction false} Convert2DictKeys<V>(cur: seq<(string, V)>)
    ensures Convert2Dict(cur).Keys == Names(cur)
    decreases |cur|
  {
    if cur != [] {
      var init := cur[..|cur| - 1];
      Convert2DictKeys(init);
      assert forall i :: 0 <= i < |init| ==> init[i] == cur[i];
      assert Names(cur) == Names(init) + {cur[|cur| - 1].0} by {
        forall i | 0 <= i < |cur| ensures cur[i].0 in Names(init) + {cur[|cur| - 1].0} {
          if i < |init| { assert init[i] == cur[i]; }
        }
      }
    }
  }

  /** Each name is bound to the value of the last attribute carrying it. */
  lemma {:induction false} Convert2DictLastWins<V>(cur: seq<(string, V)>, i: int)
    requires 0 <= i < |cur| && LastWithName(cur, i)
    ensures cur[i].0 in Convert2Dict(cur) && Convert2Dict(cur)[cur[i].0] == cur[i].1
    decreases |cur|
  {
    var init := cur[..|cur| - 1];
    if i < |init| {
      assert init[i] == cur[i];
      assert LastWithName(init, i) by {
        forall j | i < j < |init| ensures init[j].0 != init[i].0 {
          assert init[j] == cur[j];
        }
      }
      Convert2DictLastWins(init, i);
    }
  }

  /** Every entry of the dictionary is one of the attributes. */
  lemma {:induction false} Convert2DictEntries<V>(cur: seq<(string, V)>, k: string)
    requires k in Convert2Dict(cur)
    ensures exists i :: 0 <= i < |cur| && cur[i] == (k, Convert2Dict(cur)[k])
    decreases |cur|
  {
    var init, last := cur[..|cur| - 1], cur[|cur| - 1];
    if k == last.0 {
      assert cur[|cur| - 1] == (k, Convert2Dict(cur)[k]);
    } else {
      Convert2DictEntries(init, k);
      var i :| 0 <= i < |init| && init[i] == (k, Convert2Dict(init)[k]);
      assert cur[i] == (k, Convert2Dict(cur)[k]);
    }
  }

  /** A string-valued dictionary as JSON strings. */
  function AsJson(m: map<string, string>): Dict {
    map k | k in m :: Str(m[k])
  }

  /** An attribute list with each value as a JSON string. */
  function JsonValues(cur: seq<(string, string)>): seq<(string, Json)> {
    if cur == [] then [] else JsonValues(cur[..|cur| - 1]) + [(cur[|cur| - 1].0, Str(cur[|cur| - 1].1))]
  }

  /**
   * The attribute dictionary of an element with JSON string values, built from
   * the attribute list directly so that it unfolds one attribute at a time.
   */
  function AttribJson(e: Element): Dict {
    Convert2Dict(JsonValues(e.attrib))
  }

  lemma {:induction false} JsonValuesLength(cur: seq<(string, string)>)
    ensures |JsonValues(cur)| == |cur|
  {
    if cur != [] {
      JsonValuesLength(cur[..|cur| - 1]);
    }
  }

  /** Converting then wrapping every value as a JSON string is the same as wrapping first. */
  lemma {:induction false} Convert2DictJson(cur: seq<(string, string)>)
    ensures Convert2Dict(JsonValues(cur)) == AsJson(Convert2Dict(cur))
  {
    if cur != [] {
      var init, last := cur[..|cur| - 1], cur[|cur| - 1];
      Convert2DictJson(init);
      JsonValuesLength(init);
      var js := JsonValues(cur);
      assert js[..|js| - 1] == JsonValues(init) && js[|js| - 1] == (last.0, Str(last.1));
      assert AsJson(Convert2Dict(init))[last.0 := Str(last.1)] == AsJson(Convert2Dict(init)[last.0 := last.1]);
    }
  }

  /** `AttribJson` holds exactly the attribute names, each bound to its value as a JSON string. */
  lemma AttribJsonEntries(e: Element)
    ensures AttribJson(e) == AsJson(Attrib(e))
    ensures AttribJson(e).Keys == Attrib(e).Keys
    ensures forall k :: k in Attrib(e) ==> AttribJson(e)[k] == Str(Attrib(e)[k])
  {
    Convert2DictJson(e.attrib);
  }

  /** An element's attribute mapping. */
  function Attrib(e: Element): map<string, string> {
    Convert2Dict(e.attrib)
  }

  /** `.text` of an element: `None` becomes JSON null. */
  function TextOf(e: Element): Json {
    match e.text
    case None => Null
    case Some(t) => Str(t)
  }

  /** `find(tag)`: the first direct child with the tag, if any. */
  function Find(children: seq<Element>, tag: Tag): Option<Element> {
    if children == [] then None
    else if children[0].tag == tag then Some(children[0])
    else Find(children[1..], tag)
  }

  /**
   * `find` yields the FIRST child with the tag, at index `i`, and nothing
   * exactly when no child has the tag.
   */
  lemma {:induction false} FindFirst(children: seq<Element>, tag: Tag) returns (i: nat)
    ensures Find(children, tag).Some? ==>
      && i < |children| && Find(children, tag).value == children[i] && children[i].tag == tag
      && forall k :: 0 <= k < i ==> children[k].tag != tag
    ensures Find(children, tag).None? <==> forall k :: 0 <= k < |children| ==> children[k].tag != tag
    decreases |children|
  {
    if children == [] || children[0].tag == tag {
      i := 0;
    } else {
      var j := FindFirst(children[1..], tag);
      i := j + 1;
      assert forall k :: 1 <= k < |children| ==> children[k] == children[1..][k - 1];
    }
  }

  /** The attribute maps of the `select` children, in child order. */
  function Selections(children: seq<Element>): seq<map<string, string>>
    decreases |children|
  {
    if children == [] then []
    else
      var last := children[|children| - 1];
      Selections(children[..|children| - 1])
        + (if last.tag == Select then [Attrib(last)] else [])
  }

  /** The partially built output: benchmark mapping and the three collections. */
  datatype State = State(
    benchmark: Dict,
    profiles: map<string, seq<map<string, string>>>,
    rules: seq<Dict>,
    results: seq<Dict>)

  const Init: State := State(map[], map[], [], [])

  /**
   * Outcome of one turn of the dispatch loop: go on at `pos`, or stop (an
   * exception was raised, or the stream was exhausted) with the state as built.
   */
  datatype Next = Continue(st: State, pos: nat) | Halt(st: State, pos: nat)

  /**
   * The benchmark mapping a TestResult start builds, with `true` when every
   * lookup succeeded.  With `false`, the mapping is what had been built when
   * the failing lookup raised.
   */
  function InitBenchmark(root: Element): (Dict, bool) {
    var attrs := AttribJson(root);
    if "id" !in attrs then (attrs, false)
    else
      var b := attrs - {"id"};
      match Find(root.children, Target)
      case None => (b, false)
      case Some(target) =>
        var b := b["hostname" := TextOf(target)];
        match Find(root.children, Identity)
        case None => (b, false)
        case Some(identity) =>
          var b := b["user" := TextOf(identity)];
          match Find(root.children, ProfileRef)
          case None => (b, false)
          case Some(profile) =>
            if "idref" !in Attrib(profile) then (b, false)
            else (b["profile" := Str(Attrib(profile)["idref"])], true)
  }

  /** Is `ev` an end event with tag `t`? */
  predicate IsEnd(ev: Event, t: Tag) {
    ev.End? && ev.tag == t
  }

  /**
   * The Rule sub-scan: the position just after the first `End(Rule)` at or after
   * `j`, or `None` when the stream runs out first.
   */
  function RuleEnd(events: seq<Event>, j: nat): (r: Option<nat>)
    requires j <= |events|
    ensures r.Some? ==> j < r.value <= |events| && IsEnd(events[r.value - 1], Rule)
    decreases |events| - j
  {
    if j == |events| then None
    else if IsEnd(events[j], Rule) then Some(j + 1)
    else RuleEnd(events, j + 1)
  }

  /** The Rule sub-scan stops at the FIRST end event tagged Rule, and runs out exactly when there is none. */
  lemma {:induction false} RuleEndFirst(events: seq<Event>, j: nat)
    requires j <= |events|
    ensures RuleEnd(events, j).Some? ==> forall k :: j <= k < RuleEnd(events, j).value - 1 ==> !IsEnd(events[k], Rule)
    ensures RuleEnd(events, j).None? <==> forall k :: j <= k < |events| ==> !IsEnd(events[k], Rule)
    decreases |events| - j
  {
    if j < |events| && !IsEnd(events[j], Rule) {
      RuleEndFirst(events, j + 1);
    }
  }

  /** The rule record extracted from a fully scanned Rule element, if no lookup fails. */
  function RuleRecord(root: Element): Option<Dict> {
    var a := Attrib(root);
    if "id" !in a || "severity" !in a then None
    else
      match (Find(root.children, Title), Find(root.children, Description), Find(root.children, Rationale))
      case (Some(title), Some(description), Some(rationale)) =>
        Some(map[
          "id" := Str(a["id"]),
          "severity" := Str(a["severity"]),
          "check" := TextOf(title),
          "recommendation" := Str(description.allText),
          "justification" := Str(rationale.allText)])
      case _ => None
  }

  /** How one event inside a rule-result sub-scan updates the record. */
  function Absorb(rr: Dict, ev: Event): Dict {
    if ev.Start? && ev.elem.tag == Result then rr["result" := TextOf(ev.elem)]
    else if ev.Start? && ev.elem.tag == Ident then rr["ident" := TextOf(ev.elem)]
    else rr
  }

  /**
   * The rule-result sub-scan from `j` with record `rr`: the position just after
   * the first `End(RuleResult)` and the record with `result`/`ident` filled in,
   * or `None` when the stream runs out first.
   */
  function ResultScan(events: seq<Event>, j: nat, rr: Dict): (r: Option<(nat, Dict)>)
    requires j <= |events|
    ensures r.Some? ==> j < r.value.0 <= |events| && IsEnd(events[r.value.0 - 1], RuleResult)
    decreases |events| - j
  {
    if j == |events| then None
    else if IsEnd(events[j], RuleResult) then Some((j + 1, rr))
    else ResultScan(events, j + 1, Absorb(rr, events[j]))
  }

  /**
   * The rule-result sub-scan stops at the FIRST end event tagged rule-result,
   * and runs out exactly when there is none.
   */
  lemma {:induction false} ResultScanFirst(events: seq<Event>, j: nat, rr: Dict)
    requires j <= |events|
    ensures ResultScan(events, j, rr).Some? ==>
      forall k :: j <= k < ResultScan(events, j, rr).value.0 - 1 ==> !IsEnd(events[k], RuleResult)
    ensures ResultScan(events, j, rr).None? <==> forall k :: j <= k < |events| ==> !IsEnd(events[k], RuleResult)
    decreases |events| - j
  {
    if j < |events| && !IsEnd(events[j], RuleResult) {
      ResultScanFirst(events, j + 1, Absorb(rr, events[j]));
    }
  }

  /** One turn of the dispatch loop at position `p`. */
  function Step(events: seq<Event>, p: nat, st: State): (r: Next)
    requires p <= |events|
    ensures r.Continue? ==> p < r.pos <= |events|
    ensures r.Halt? ==> r.pos <= |events|
  {
    if p == |events| then Halt(st, p)
    else match events[p]
      case End(_) => Continue(st, p + 1)
      case Start(root) =>
        if root.tag == Benchmark then
          if root.nsDefault == Some(Xmlns) then Continue(st, p + 1) else Halt(st, p + 1)
        else if root.tag == TestResult then
          var (b, ok) := InitBenchmark(root);
          if ok then Continue(st.(benchmark := b), p + 1) else Halt(st.(benchmark := b), p + 1)
        else if root.tag == Profile then
          if "id" !in Attrib(root) then Halt(st, p + 1)
          else Continue(st.(profiles := st.profiles[Attrib(root)["id"] := Selections(root.children)]), p + 1)
        else if root.tag == Rule then
          match RuleEnd(events, p + 1)
          case None => Halt(st, |events|)
          case Some(q) =>
            match RuleRecord(root)
            case None => Halt(st, q)
            case Some(rule) => Continue(st.(rules := st.rules + [rule]), q)
        else if root.tag == Score then
          Continue(st.(benchmark := st.benchmark["score" := TextOf(root)]), p + 1)
        else if root.tag == RuleResult then
          var attrs := AttribJson(root);
          if "time" !in attrs then Halt(st, p + 1)
          else
            match ResultScan(events, p + 1, attrs - {"time"})
            case None => Halt(st, |events|)
            case Some((q, rr)) => Continue(st.(results := st.results + [rr]), q)
        else Continue(st, p + 1)
  }

  /** The dispatch loop from position `p`: always ends in `Halt`. */
  function Run(events: seq<Event>, p: nat, st: State): (r: Next)
    requires p <= |events|
    ensures r.Halt? && r.pos <= |events|
    decreases |events| - p
  {
    match Step(events, p, st)
    case Halt(s, q) => Halt(s, q)
    case Continue(s, q) => Run(events, q, s)
  }

  /** A list of dictionaries as a JSON array of objects. */
  function Objects(ds: seq<Dict>): seq<Json> {
    seq(|ds|, i requires 0 <= i < |ds| => Obj(ds[i]))
  }

  /** The profiles mapping as a JSON object of arrays of attribute objects. */
  function ProfilesJson(profiles: map<string, seq<map<string, string>>>): Json {
    Obj(map id | id in profiles ::
      Arr(seq(|profiles[id]|, i requires 0 <= i < |profiles[id]| => Obj(AsJson(profiles[id][i])))))
  }

  /**
   * The `finally` block: the three collections are attached to the benchmark
   * mapping, replacing any attributes of those names; every other key is kept.
   */
  function Attach(st: State): Dict {
    st.benchmark["profiles" := ProfilesJson(st.profiles)]
                ["results" := Arr(Objects(st.results))]
                ["rules" := Arr(Objects(st.rules))]
  }

  /**
   * The document holds the benchmark's keys plus `profiles`, `results` and
   * `rules`; those three are the collections, one JSON object per record in
   * order, and every other key keeps its benchmark value.
   */
  lemma AttachFields(st: State)
    ensures Attach(st).Keys == st.benchmark.Keys + {"profiles", "results", "rules"}
    ensures Attach(st)["profiles"] == ProfilesJson(st.profiles)
    ensures Attach(st)["results"] == Arr(Objects(st.results)) && Attach(st)["rules"] == Arr(Objects(st.rules))
    ensures |Objects(st.results)| == |st.results| && |Objects(st.rules)| == |st.rules|
    ensures forall i :: 0 <= i < |st.results| ==> Objects(st.results)[i] == Obj(st.results[i])
    ensures forall i :: 0 <= i < |st.rules| ==> Objects(st.rules)[i] == Obj(st.rules[i])
    ensures forall k :: k in st.benchmark && k !in {"profiles", "results", "rules"} ==> Attach(st)[k] == st.benchmark[k]
  {
  }

  /** `get_json` on the events from position `p` on. */
  function GetJson(events: seq<Event>, p: nat): Dict
    requires p <= |events|
  {
    Attach(Run(events, p, Init).st)
  }
}
