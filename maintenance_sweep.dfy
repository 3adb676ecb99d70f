/** The preventive-maintenance sweep of AlarmProcessingService: eG Manager and
    eG Agent components are selected, the measures of their enabled tests are
    picked through the display-name mappings, and every (component, test,
    measure) visit writes one JSON entry with its historical data and detailed
    diagnosis into a ZIP archive. */
module MaintenanceSweep {
  import opened Wrappers
  import opened Text
  import opened Json
  import opened Archive
  import opened Seqs
  import AlarmProcessing

  /** DiagnosisDataRequestBody, shared with the alarm half. */
  type DiagReq = AlarmProcessing.DiagReq

  /** ManagedComponent */
  datatype Component = Component(name: string, componentType: string, port: string)

  // ------------------------------------------------------------ selection

  predicate IsServer(c: Component) {
    Contains(c.componentType, "eG Manager") || Contains(c.componentType, "eG Agent")
  }

  /** The servers among the components, in inventory order. */
  function Servers(cs: seq<Component>): (r: seq<Component>)
    ensures forall c :: c in r <==> c in cs && IsServer(c)
    ensures |r| <= |cs|
  {
    if cs == [] then []
    else
      var init := Servers(cs[..|cs| - 1]);
      assert cs == cs[..|cs| - 1] + [cs[|cs| - 1]];
      if IsServer(cs[|cs| - 1]) then init + [cs[|cs| - 1]] else init
  }

  /** The selection loop: each server is appended to the caller's list, whose
      earlier entries stay in place. */
  method SelectServers(selected: seq<Component>, components: seq<Component>) returns (r: seq<Component>)
    ensures r == selected + Servers(components)
  {
    r := selected;
    var i := 0;
    while i < |components|
      invariant 0 <= i <= |components|
      invariant r == selected + Servers(components[..i])
    {
      ServersStep(components, i);
      if IsServer(components[i]) {
        ConcatAssoc(selected, Servers(components[..i]), [components[i]]);
        r := r + [components[i]];
      }
      i := i + 1;
    }
    assert components[..i] == components;
  }

  /** One more component extends the servers of a prefix by that component
      when it is a server. */
  lemma ServersStep(cs: seq<Component>, i: int)
    requires 0 <= i < |cs|
    ensures Servers(cs[..i + 1]) == Servers(cs[..i]) + if IsServer(cs[i]) then [cs[i]] else []
  {
    var p := cs[..i + 1];
    assert p[..|p| - 1] == cs[..i] && p[|p| - 1] == cs[i];
  }

  // --------------------------------------------------------- enumeration

  /** The concatenation of f over s, in order. */
  function FlatMap<A, B>(s: seq<A>, f: A -> seq<B>): seq<B> {
    if s == [] then [] else FlatMap(s[..|s| - 1], f) + f(s[|s| - 1])
  }

  lemma {:induction false} FlatMapMember<A, B>(s: seq<A>, f: A -> seq<B>, b: B)
    ensures b in FlatMap(s, f) <==> exists i :: 0 <= i < |s| && b in f(s[i])
  {
    if s != [] {
      var init := s[..|s| - 1];
      FlatMapMember(init, f, b);
      if b in FlatMap(init, f) {
        var i :| 0 <= i < |init| && b in f(init[i]);
        assert s[i] == init[i];
      }
      if exists i :: 0 <= i < |s| && b in f(s[i]) {
        var i :| 0 <= i < |s| && b in f(s[i]);
        if i < |s| - 1 { assert init[i] == s[i]; }
      }
    }
  }

  lemma {:induction false} FlatMapAppend<A, B>(s: seq<A>, t: seq<A>, f: A -> seq<B>)
    ensures FlatMap(s + t, f) == FlatMap(s, f) + FlatMap(t, f)
  {
    if t == [] {
      assert s + t == s;
    } else {
      assert (s + t)[..|s + t| - 1] == s + t[..|t| - 1];
      FlatMapAppend(s, t[..|t| - 1], f);
    }
  }

  /** One visit of the nested loops: a component, an enabled test and the
      display name of a measure. */
  datatype Visit = Visit(component: Component, test: string, measure: string)

  /** The display names of the measure keys "<internalTest>:..." in the
      measure mapping. */
  function MeasuresOf(internalTest: string, measureMapping: seq<(string, string)>): seq<string> {
    FlatMap(measureMapping, (p: (string, string)) => if StartsWith(p.0, internalTest + ":") then [p.1] else [])
  }

  /** The measures visited for an enabled test: those of every internal test
      whose display name in the test mapping equals it. */
  function TestMeasures(test: string, testMapping: seq<(string, string)>, measureMapping: seq<(string, string)>): seq<string> {
    FlatMap(testMapping, (p: (string, string)) => if p.1 == test then MeasuresOf(p.0, measureMapping) else [])
  }

  function VisitsOfTest(c: Component, test: string, testMapping: seq<(string, string)>, measureMapping: seq<(string, string)>): (r: seq<Visit>)
    ensures |r| == |TestMeasures(test, testMapping, measureMapping)|
    ensures forall v :: v in r <==>
      v.component == c && v.test == test && v.measure in TestMeasures(test, testMapping, measureMapping)
  {
    var ms := TestMeasures(test, testMapping, measureMapping);
    var r := seq(|ms|, i requires 0 <= i < |ms| => Visit(c, test, ms[i]));
    assert forall v: Visit :: v.component == c && v.test == test && v.measure in ms ==> v in r by {
      forall v: Visit | v.component == c && v.test == test && v.measure in ms
        ensures v in r
      {
        var j :| 0 <= j < |ms| && ms[j] == v.measure;
        assert r[j] == v;
      }
    }
    r
  }

  /** The visits of a component with the given enabled tests. */
  function ComponentVisits(c: Component, tests: seq<string>, testMapping: seq<(string, string)>,
                           measureMapping: seq<(string, string)>): seq<Visit> {
    FlatMap(tests, (t: string) => VisitsOfTest(c, t, testMapping, measureMapping))
  }

  lemma MeasuresOfMember(internalTest: string, measureMapping: seq<(string, string)>, m: string)
    ensures m in MeasuresOf(internalTest, measureMapping) <==>
      exists j :: 0 <= j < |measureMapping| && StartsWith(measureMapping[j].0, internalTest + ":") && measureMapping[j].1 == m
  {
    FlatMapMember(measureMapping, (p: (string, string)) => if StartsWith(p.0, internalTest + ":") then [p.1] else [], m);
  }

  lemma TestMeasuresMember(test: string, testMapping: seq<(string, string)>, measureMapping: seq<(string, string)>, m: string)
    ensures m in TestMeasures(test, testMapping, measureMapping) <==>
      exists i, j :: 0 <= i < |testMapping| && 0 <= j < |measureMapping| &&
        testMapping[i].1 == test && StartsWith(measureMapping[j].0, testMapping[i].0 + ":") && measureMapping[j].1 == m
  {
    var g := (p: (string, string)) => if p.1 == test then MeasuresOf(p.0, measureMapping) else [];
    FlatMapMember(testMapping, g, m);
    forall i | 0 <= i < |testMapping| {
      MeasuresOfMember(testMapping[i].0, measureMapping, m);
    }
  }

  /** A component visits a measure exactly when one of its enabled tests is
      the display name of an internal test, and the measure is the display
      name of a measure key starting with that internal test and ':'. */
  lemma VisitCharacterized(c: Component, tests: seq<string>, testMapping: seq<(string, string)>,
                           measureMapping: seq<(string, string)>, v: Visit)
    ensures v in ComponentVisits(c, tests, testMapping, measureMapping) <==>
      (v.component == c && v.test in tests &&
       exists i, j :: 0 <= i < |testMapping| && 0 <= j < |measureMapping| &&
         testMapping[i].1 == v.test && StartsWith(measureMapping[j].0, testMapping[i].0 + ":") &&
         measureMapping[j].1 == v.measure)
  {
    var f := (t: string) => VisitsOfTest(c, t, testMapping, measureMapping);
    FlatMapMember(tests, f, v);
    TestMeasuresMember(v.test, testMapping, measureMapping, v.measure);
    forall t | t in tests
      ensures v in f(t) <==> v.component == c && v.test == t && v.measure in TestMeasures(t, testMapping, measureMapping)
    {
      var ms := TestMeasures(t, testMapping, measureMapping);
      if v.component == c && v.test == t && v.measure in ms {
        var k :| 0 <= k < |ms| && ms[k] == v.measure;
        assert f(t)[k] == v;
      }
    }
  }

  // ------------------------------------------------------ enabled tests

  /** What testRepository.showTests gives: the EnabledDisabledTests (its
      enabled-test list, or None for null), a RuntimeException, or any other
      exception. */
  datatype TestsCall = Returned(tests: Option<seq<string>>) | RuntimeError | OtherError

  /** The classpath resource "showTests.<type>.json": absent, unreadable or
      unparseable, or parsed (to null or to a value). */
  datatype Resource = Missing | Unreadable | Loaded(tests: Option<seq<string>>)

  /** One series of a historical-data map: a descriptor and its points. */
  datatype Series = Series(info: string, points: seq<Json>)

  /** The Map<String, List<TestData>> of a historical-data call, in its
      iteration order. */
  datatype HistData = HistData(series: seq<Series>)

  /** historyBodyMap */
  datatype HistBody = HistBody(
    timeline: string, componentName: string, componentType: string,
    test: string, measure: string, showDisplayName: string)

  /** The remote calls and the classpath of the sweep. */
  datatype SweepBackend = SweepBackend(
    showTests: Component -> TestsCall,
    resource: string -> Resource,
    history: HistBody -> Outcome<HistData>,
    diagnosis: DiagReq -> Outcome<Json>)

  function ResourceName(c: Component): string {
    "showTests." + c.componentType + ".json"
  }

  /** The enabled tests of a component, or None when it is skipped: the
      showTests call returned null, or it threw a RuntimeException and the
      fallback resource is missing, unreadable or null, or it threw anything
      else (caught by the per-component handler). */
  function EnabledTests(c: Component, b: SweepBackend): (r: Option<seq<string>>)
    ensures b.showTests(c).OtherError? ==> r.None?
    ensures b.showTests(c).Returned? ==> r == b.showTests(c).tests
    ensures b.showTests(c).RuntimeError? ==>
      (r.Some? <==> b.resource(ResourceName(c)).Loaded? && b.resource(ResourceName(c)).tests.Some?)
    ensures b.showTests(c).RuntimeError? && b.resource(ResourceName(c)).Loaded? ==>
      r == b.resource(ResourceName(c)).tests
    ensures b.showTests(c).RuntimeError? && !b.resource(ResourceName(c)).Loaded? ==> r.None?
  {
    match b.showTests(c)
    case Returned(t) => t
    case OtherError => None
    case RuntimeError =>
      match b.resource(ResourceName(c))
      case Loaded(t) => t
      case _ => None
  }

  function ServerVisits(c: Component, testMapping: seq<(string, string)>, measureMapping: seq<(string, string)>,
                        b: SweepBackend): seq<Visit> {
    match EnabledTests(c, b)
    case None => []
    case Some(ts) => ComponentVisits(c, ts, testMapping, measureMapping)
  }

  /** Every visit of the sweep, in processing order. */
  function SweepVisits(servers: seq<Component>, testMapping: seq<(string, string)>, measureMapping: seq<(string, string)>,
                       b: SweepBackend): seq<Visit> {
    FlatMap(servers, (c: Component) => ServerVisits(c, testMapping, measureMapping, b))
  }

  // ------------------------------------------------------------ documents

  /** A value in the entry's output map. RequestRef is the shared diagReq
      object, whose fields keep changing after it is stored; Request is that
      object as it is serialized at the end. */
  datatype Leaf =
    | Text(text: string)
    | Body(body: HistBody)
    | History(hist: HistData)
    | Data(data: Json)
    | RequestRef
    | Request(req: DiagReq)

  /** A top-level value: a leaf, or a nested map (historicalDataMap and the
      per-descriptor maps). */
  datatype Node = Leaf(leaf: Leaf) | Obj(fields: map<string, Leaf>)

  type Document = map<string, Node>

  function ResolveLeaf(l: Leaf, req: DiagReq): (r: Leaf)
    ensures !r.RequestRef?
    ensures l.RequestRef? ==> r == Request(req)
    ensures !l.RequestRef? ==> r == l
  {
    if l.RequestRef? then Request(req) else l
  }

  /** Serialization: every reference to the shared request shows its final
      state. */
  function Resolve(doc: Document, req: DiagReq): (r: Document)
    ensures r.Keys == doc.Keys
    ensures forall k :: k in r && r[k].Leaf? ==> doc[k].Leaf? && r[k].leaf == ResolveLeaf(doc[k].leaf, req)
    ensures forall k :: k in r && r[k].Obj? ==>
      (doc[k].Obj? && r[k].fields.Keys == doc[k].fields.Keys &&
       forall f :: f in r[k].fields ==> r[k].fields[f] == ResolveLeaf(doc[k].fields[f], req))
  {
    map k | k in doc :: match doc[k]
      case Leaf(l) => Leaf(ResolveLeaf(l, req))
      case Obj(fs) => Obj(map f | f in fs :: ResolveLeaf(fs[f], req))
  }

  /** The keys the catch blocks add. */
  function WithError(doc: Document, msg: string, body: HistBody): (r: Document)
    ensures r.Keys == doc.Keys + {"error", "metaData", "diagnosisDataMetaData"}
    ensures r["error"] == Leaf(Text(msg)) && r["metaData"] == Leaf(Body(body)) && r["diagnosisDataMetaData"] == Leaf(RequestRef)
  {
    doc["error" := Leaf(Text(msg))]["metaData" := Leaf(Body(body))]["diagnosisDataMetaData" := Leaf(RequestRef)]
  }

  /** The state of the per-descriptor loop. */
  datatype Pass = Pass(doc: Document, req: DiagReq, calls: seq<DiagReq>, error: Option<string>)

  function DescriptorKey(info: string): string {
    "historicalDetailedDiagnosisData-" + info
  }

  /** The per-descriptor loop over the first n series: each descriptor is set
      on the shared request, one diagnosis call is made, and its result is
      stored with a reference to the request. A failing call ends the loop. */
  function DescriptorPass(series: seq<Series>, diagnosis: DiagReq -> Outcome<Json>, start: Pass, n: nat): (p: Pass)
    requires n <= |series|
    ensures |p.calls| <= |start.calls| + n
  {
    if n == 0 then start
    else
      var p := DescriptorPass(series, diagnosis, start, n - 1);
      if p.error.Some? then p
      else
        var info := series[n - 1].info;
        var req := p.req.(info := Some(info));
        match diagnosis(req)
        case Ok(d) =>
          Pass(p.doc[DescriptorKey(info) := Obj(map["diagnosisDataMetaData-" + info := RequestRef, "diagnosisData-" + info := Data(d)])],
               req, p.calls + [req], None)
        case _ => Pass(p.doc, req, p.calls + [req], Some(diagnosis(req).Message()))
  }

  /** Once a call has failed, later descriptors change nothing. */
  lemma {:induction false} DescriptorPassSticky(series: seq<Series>, diagnosis: DiagReq -> Outcome<Json>, start: Pass, n: nat, m: nat)
    requires n <= m <= |series|
    requires DescriptorPass(series, diagnosis, start, n).error.Some?
    ensures DescriptorPass(series, diagnosis, start, m) == DescriptorPass(series, diagnosis, start, n)
  {
    if m > n {
      DescriptorPassSticky(series, diagnosis, start, n, m - 1);
    }
  }

  /** Without a failure there is exactly one call per descriptor, in order,
      each with the base request and that descriptor as its info, and the
      request is left holding the last descriptor. */
  lemma {:induction false} DescriptorPassCalls(series: seq<Series>, diagnosis: DiagReq -> Outcome<Json>, start: Pass, n: nat)
    requires n <= |series|
    requires start.error.None?
    requires DescriptorPass(series, diagnosis, start, n).error.None?
    ensures var p := DescriptorPass(series, diagnosis, start, n);
      |p.calls| == |start.calls| + n &&
      p.calls[..|start.calls|] == start.calls &&
      (forall i :: 0 <= i < n ==> p.calls[|start.calls| + i] == start.req.(info := Some(series[i].info))) &&
      (n > 0 ==> p.req == start.req.(info := Some(series[n - 1].info))) &&
      (n == 0 ==> p.req == start.req)
  {
    if n > 0 {
      DescriptorPassCalls(series, diagnosis, start, n - 1);
    }
  }

  /** Without a failure, every descriptor has its own map, whose metadata slot
      is a reference to the shared request, and the keys present before are
      kept. */
  lemma {:induction false} DescriptorPassSlots(series: seq<Series>, diagnosis: DiagReq -> Outcome<Json>, start: Pass, n: nat)
    requires n <= |series|
    requires start.error.None?
    requires DescriptorPass(series, diagnosis, start, n).error.None?
    ensures var p := DescriptorPass(series, diagnosis, start, n);
      start.doc.Keys <= p.doc.Keys &&
      (forall k :: k in start.doc && (forall i :: 0 <= i < n ==> k != DescriptorKey(series[i].info)) ==> p.doc[k] == start.doc[k]) &&
      forall i :: 0 <= i < n ==>
        DescriptorKey(series[i].info) in p.doc && p.doc[DescriptorKey(series[i].info)].Obj? &&
        "diagnosisDataMetaData-" + series[i].info in p.doc[DescriptorKey(series[i].info)].fields &&
        p.doc[DescriptorKey(series[i].info)].fields["diagnosisDataMetaData-" + series[i].info] == RequestRef
  {
    if n > 0 {
      var p0 := DescriptorPass(series, diagnosis, start, n - 1);
      DescriptorPassSlots(series, diagnosis, start, n - 1);
      var info := series[n - 1].info;
      var req := p0.req.(info := Some(info));
      assert p0.error.None? && diagnosis(req).Ok?;
      var slot := Obj(map["diagnosisDataMetaData-" + info := RequestRef, "diagnosisData-" + info := Data(diagnosis(req).value)]);
      assert DescriptorPass(series, diagnosis, start, n).doc == p0.doc[DescriptorKey(info) := slot];
      forall i | 0 <= i < n - 1 && DescriptorKey(series[i].info) == DescriptorKey(info)
        ensures series[i].info == info
      {
        assert series[i].info == DescriptorKey(series[i].info)[|"historicalDetailedDiagnosisData-"|..];
        assert info == DescriptorKey(info)[|"historicalDetailedDiagnosisData-"|..];
      }
    }
  }

  /** The document of one visit, as serialized, and the diagnosis calls it
      made. */
  datatype TupleResult = TupleResult(doc: Document, calls: seq<DiagReq>)

  function HistoryBody(v: Visit, timeline: string): HistBody {
    HistBody(timeline, v.component.name + ":" + v.component.port, v.component.componentType, v.test, v.measure, "true")
  }

  function BaseRequest(v: Visit): DiagReq {
    AlarmProcessing.DiagReq("1 days", Some(v.component.name + ":" + v.component.port), v.component.componentType,
                            Some(v.test), Some(v.measure), None, true)
  }

  /** The historical data once fetched: a TestNotAssociatedException gives an
      empty map; None for the exceptions that reach the catch blocks. */
  function FetchedHistory(o: Outcome<HistData>): (r: Option<HistData>)
    ensures r.None? <==> o.ComponentNotAssociated? || o.Failed?
    ensures o.TestNotAssociated? ==> r == Some(HistData([]))
    ensures o.Ok? ==> r == Some(o.value)
  {
    match o
    case Ok(h) => Some(h)
    case TestNotAssociated(_) => Some(HistData([]))
    case _ => None
  }

  /** historicalDataMap before the diagnosis calls. */
  function HistoryMap(body: HistBody, h: HistData): map<string, Leaf> {
    map["metaData" := Body(body), "historicalData" := History(h)]
  }

  /** One visit: the historical-data call, then one diagnosis call per
      descriptor when there are several, or a single call with a null info. */
  function TupleDocument(v: Visit, timeline: string, b: SweepBackend): TupleResult {
    var body := HistoryBody(v, timeline);
    var base := BaseRequest(v);
    match FetchedHistory(b.history(body))
    case None => TupleResult(Resolve(WithError(map[], b.history(body).Message(), body), base), [])
    case Some(h) =>
      var hdm := HistoryMap(body, h);
      var doc := map["historicalData" := Obj(hdm)];
      if |h.series| > 1 then
        var p := DescriptorPass(h.series, b.diagnosis, Pass(doc, base, [], None), |h.series|);
        var out := if p.error.Some? then WithError(p.doc, p.error.value, body) else p.doc;
        TupleResult(Resolve(out, p.req), p.calls)
      else
        match b.diagnosis(base)
        case Ok(d) =>
          var full := hdm["diagnosisDataMetaData" := RequestRef]["diagnosisData" := Data(d)];
          TupleResult(Resolve(doc["historicalData" := Obj(full)], base), [base])
        case _ => TupleResult(Resolve(WithError(doc, b.diagnosis(base).Message(), body), base), [base])
  }

  /** The first descriptor of the key set (the iterator's next()). */
  function FirstInfo(h: HistData): string {
    if h.series == [] then "" else h.series[0].info
  }

  /** The body of the innermost lambda, from the history call to the entry's
      contents. The three "message" retries test historicalDataMap, which
      never holds that key. */
  method ProcessTuple(v: Visit, timeline: string, b: SweepBackend) returns (doc: Document, calls: seq<DiagReq>)
    ensures TupleResult(doc, calls) == TupleDocument(v, timeline, b)
  {
    var body := HistoryBody(v, timeline);
    var diagReq := BaseRequest(v);
    calls := [];
    var outputMap: Document := map[];
    var fetched := FetchedHistory(b.history(body));
    if fetched.None? {
      outputMap := WithError(outputMap, b.history(body).Message(), body);
      doc := Resolve(outputMap, diagReq);
      return;
    }
    var h := fetched.value;
    var hdm := HistoryMap(body, h);
    outputMap := outputMap["historicalData" := Obj(hdm)];
    var failure: Option<string> := None;
    if |h.series| > 1 {
      var i := 0;
      ghost var start := Pass(outputMap, diagReq, calls, None);
      while i < |h.series| && failure.None?
        invariant 0 <= i <= |h.series|
        invariant Pass(outputMap, diagReq, calls, failure) == DescriptorPass(h.series, b.diagnosis, start, i)
      {
        var info := h.series[i].info;
        diagReq := diagReq.(info := Some(info));
        var diagnosisData := b.diagnosis(diagReq);
        calls := calls + [diagReq];
        if diagnosisData.Ok? {
          var m := map["diagnosisDataMetaData-" + info := RequestRef, "diagnosisData-" + info := Data(diagnosisData.value)];
          outputMap := outputMap[DescriptorKey(info) := Obj(m)];
        } else {
          failure := Some(diagnosisData.Message());
        }
        i := i + 1;
      }
      if failure.Some? {
        DescriptorPassSticky(h.series, b.diagnosis, start, i, |h.series|);
      }
    } else {
      var diagnosisData := b.diagnosis(diagReq);
      calls := calls + [diagReq];
      if diagnosisData.Ok? {
        hdm := hdm["diagnosisDataMetaData" := RequestRef];
        outputMap := outputMap["historicalData" := Obj(hdm)];
      }
      if "message" in hdm && diagnosisData.Ok? {
        diagReq := diagReq.(componentName := Some(v.component.name));
        diagnosisData := b.diagnosis(diagReq);
        calls := calls + [diagReq];
      }
      if "message" in hdm && diagnosisData.Ok? {
        diagReq := diagReq.(componentName := Some(v.component.name), info := Some(FirstInfo(h)));
        diagnosisData := b.diagnosis(diagReq);
        calls := calls + [diagReq];
      }
      if "message" in hdm && diagnosisData.Ok? {
        diagReq := diagReq.(componentName := Some(v.component.name + ":" + v.component.port), info := Some(FirstInfo(h)));
        diagnosisData := b.diagnosis(diagReq);
        calls := calls + [diagReq];
      }
      if diagnosisData.Ok? {
        hdm := hdm["diagnosisData" := Data(diagnosisData.value)];
        outputMap := outputMap["historicalData" := Obj(hdm)];
      } else {
        failure := Some(diagnosisData.Message());
      }
    }
    if failure.Some? {
      outputMap := WithError(outputMap, failure.value, body);
    }
    doc := Resolve(outputMap, diagReq);
  }

  /** With several descriptors and no failing call, every per-descriptor map
      shows the request as it stands after the loop: with the last
      descriptor as its info, whatever descriptor the map belongs to. */
  lemma SharedRequestShowsLast(v: Visit, timeline: string, b: SweepBackend, h: HistData)
    requires FetchedHistory(b.history(HistoryBody(v, timeline))) == Some(h)
    requires |h.series| > 1
    requires forall i :: 0 <= i < |h.series| ==> b.diagnosis(BaseRequest(v).(info := Some(h.series[i].info))).Ok?
    ensures var r := TupleDocument(v, timeline, b);
      var last := BaseRequest(v).(info := Some(h.series[|h.series| - 1].info));
      |r.calls| == |h.series| &&
      (forall i :: 0 <= i < |h.series| ==>
        r.calls[i] == BaseRequest(v).(info := Some(h.series[i].info)) &&
        DescriptorKey(h.series[i].info) in r.doc && r.doc[DescriptorKey(h.series[i].info)].Obj? &&
        "diagnosisDataMetaData-" + h.series[i].info in r.doc[DescriptorKey(h.series[i].info)].fields &&
        r.doc[DescriptorKey(h.series[i].info)].fields["diagnosisDataMetaData-" + h.series[i].info] == Request(last))
  {
    var body := HistoryBody(v, timeline);
    var start := Pass(map["historicalData" := Obj(HistoryMap(body, h))], BaseRequest(v), [], None);
    NoFailure(h.series, b.diagnosis, start, |h.series|);
    DescriptorPassCalls(h.series, b.diagnosis, start, |h.series|);
    DescriptorPassSlots(h.series, b.diagnosis, start, |h.series|);
  }

  lemma {:induction false} NoFailure(series: seq<Series>, diagnosis: DiagReq -> Outcome<Json>, start: Pass, n: nat)
    requires n <= |series|
    requires start.error.None?
    requires forall i :: 0 <= i < |series| ==> diagnosis(start.req.(info := Some(series[i].info))).Ok?
    ensures DescriptorPass(series, diagnosis, start, n).error.None?
    ensures n > 0 ==> DescriptorPass(series, diagnosis, start, n).req == start.req.(info := Some(series[n - 1].info))
    ensures n == 0 ==> DescriptorPass(series, diagnosis, start, n).req == start.req
  {
    if n > 0 {
      NoFailure(series, diagnosis, start, n - 1);
    }
  }

  /** With at most one descriptor there is exactly one diagnosis call, with a
      null info: the retries never run. */
  lemma SingleDiagnosisCall(v: Visit, timeline: string, b: SweepBackend, h: HistData)
    requires FetchedHistory(b.history(HistoryBody(v, timeline))) == Some(h)
    requires |h.series| <= 1
    ensures TupleDocument(v, timeline, b).calls == [BaseRequest(v)]
    ensures BaseRequest(v).info.None?
  {
  }

  /** A history call that throws anything but TestNotAssociatedException
      leaves only the three error keys. */
  lemma HistoryFailureDocument(v: Visit, timeline: string, b: SweepBackend)
    requires b.history(HistoryBody(v, timeline)).ComponentNotAssociated? || b.history(HistoryBody(v, timeline)).Failed?
    ensures TupleDocument(v, timeline, b).doc.Keys == {"error", "metaData", "diagnosisDataMetaData"}
    ensures TupleDocument(v, timeline, b).calls == []
  {
  }

  // ------------------------------------------------------------- archive

  /** A visit's entry name: "<type>_<name>_<test>_<measure>.json" with space,
      ':' and '/' turned into '-'. */
  function SweepEntryName(v: Visit): (r: string)
    ensures ' ' !in r && ':' !in r && '/' !in r
    ensures |r| == |SweepEntrySource(v)|
    ensures forall i :: 0 <= i < |r| ==>
      r[i] == if NameBreak(SweepEntrySource(v)[i]) then '-' else SweepEntrySource(v)[i]
  {
    ReplaceChar(ReplaceChar(ReplaceChar(SweepEntrySource(v), ' ', '-'), ':', '-'), '/', '-')
  }

  /** The entry name before the replacements. */
  function SweepEntrySource(v: Visit): string {
    v.component.componentType + "_" + v.component.name + "_" + v.test + "_" + v.measure + ".json"
  }

  /** The characters the entry name may not hold. */
  predicate NameBreak(c: char) {
    c == ' ' || c == ':' || c == '/'
  }

  /** The archive after the given visits, each written in its finally block. */
  function ArchiveOf(zip: seq<Entry<Document>>, visits: seq<Visit>, timeline: string, b: SweepBackend): (r: seq<Entry<Document>>)
    ensures |r| <= |zip| + |visits|
  {
    if visits == [] then zip
    else
      var last := visits[|visits| - 1];
      Put(ArchiveOf(zip, visits[..|visits| - 1], timeline, b), SweepEntryName(last), TupleDocument(last, timeline, b).doc)
  }

  lemma {:induction false} ArchiveOfAppend(zip: seq<Entry<Document>>, a: seq<Visit>, c: seq<Visit>, timeline: string, b: SweepBackend)
    ensures ArchiveOf(zip, a + c, timeline, b) == ArchiveOf(ArchiveOf(zip, a, timeline, b), c, timeline, b)
  {
    if c == [] {
      assert a + c == a;
    } else {
      assert (a + c)[..|a + c| - 1] == a + c[..|c| - 1];
      ArchiveOfAppend(zip, a, c[..|c| - 1], timeline, b);
    }
  }

  lemma {:induction false} PutKeepsNames<T>(zip: seq<Entry<T>>, name: string, content: T, other: string)
    requires HasName(zip, other)
    ensures HasName(Put(zip, name, content), other)
  {
    var i :| 0 <= i < |zip| && zip[i].name == other;
    var r := Put(zip, name, content);
    assert r[i] == zip[i];
  }

  /** Every visit has an entry under its name (the first visit with a name
      keeps it), and names already in the archive stay. */
  lemma {:induction false} EveryVisitWritten(zip: seq<Entry<Document>>, visits: seq<Visit>, timeline: string, b: SweepBackend)
    ensures forall v :: v in visits ==> HasName(ArchiveOf(zip, visits, timeline, b), SweepEntryName(v))
    ensures forall n :: HasName(zip, n) ==> HasName(ArchiveOf(zip, visits, timeline, b), n)
  {
    if visits != [] {
      var init := visits[..|visits| - 1];
      var last := visits[|visits| - 1];
      EveryVisitWritten(zip, init, timeline, b);
      var before := ArchiveOf(zip, init, timeline, b);
      forall n | HasName(before, n)
        ensures HasName(ArchiveOf(zip, visits, timeline, b), n)
      {
        PutKeepsNames(before, SweepEntryName(last), TupleDocument(last, timeline, b).doc, n);
      }
      forall v | v in visits ensures HasName(ArchiveOf(zip, visits, timeline, b), SweepEntryName(v)) {
        if v != last {
          assert v in init by {
            var k :| 0 <= k < |visits| && visits[k] == v;
            assert init[k] == v;
          }
        }
      }
    }
  }

  lemma SweepVisitsSnoc(servers: seq<Component>, i: int, testMapping: seq<(string, string)>,
                        measureMapping: seq<(string, string)>, b: SweepBackend)
    requires 0 <= i < |servers|
    ensures SweepVisits(servers[..i + 1], testMapping, measureMapping, b) ==
      SweepVisits(servers[..i], testMapping, measureMapping, b) + ServerVisits(servers[i], testMapping, measureMapping, b)
  {
    assert servers[..i + 1][..i] == servers[..i];
  }

  /** The visits of one component, each processed and written in turn. */
  method WriteVisits(zip: seq<Entry<Document>>, visits: seq<Visit>, timeline: string, b: SweepBackend)
    returns (r: seq<Entry<Document>>)
    ensures r == ArchiveOf(zip, visits, timeline, b)
  {
    r := zip;
    var j := 0;
    while j < |visits|
      invariant 0 <= j <= |visits|
      invariant r == ArchiveOf(zip, visits[..j], timeline, b)
    {
      var doc, _ := ProcessTuple(visits[j], timeline, b);
      r := Put(r, SweepEntryName(visits[j]), doc);
      assert visits[..j + 1][..j] == visits[..j];
      j := j + 1;
    }
    assert visits[..j] == visits;
  }

  /** preparePreventiveMaintenance. The inventory's components, the caller's
      list, the iteration order of both mappings and the "analysis.timeline"
      property are inputs; archiveOpens is false when the ZIP file cannot be
      created, in which case the failure is only logged and nothing (not even
      the selection) happens. The three nested forEach loops over tests, test
      mapping and measure mapping run here as one loop over the visits they
      enumerate. */
  method PreparePreventiveMaintenance(components: seq<Component>, selected: seq<Component>,
                                      testMapping: seq<(string, string)>, measureMapping: seq<(string, string)>,
                                      timeline: string, b: SweepBackend, archiveOpens: bool)
    returns (servers: seq<Component>, archive: Option<seq<Entry<Document>>>)
    ensures !archiveOpens ==> servers == selected && archive.None?
    ensures archiveOpens ==> servers == selected + Servers(components)
    ensures archiveOpens ==> archive == Some(ArchiveOf([], SweepVisits(servers, testMapping, measureMapping, b), timeline, b))
  {
    if !archiveOpens {
      return selected, None;
    }
    servers := SelectServers(selected, components);
    var zip: seq<Entry<Document>> := [];
    var i := 0;
    while i < |servers|
      invariant 0 <= i <= |servers|
      invariant zip == ArchiveOf([], SweepVisits(servers[..i], testMapping, measureMapping, b), timeline, b)
    {
      var c := servers[i];
      var visits: seq<Visit> := [];
      var tests := EnabledTests(c, b);
      if tests.Some? {
        visits := ComponentVisits(c, tests.value, testMapping, measureMapping);
      }
      zip := WriteVisits(zip, visits, timeline, b);
      SweepVisitsSnoc(servers, i, testMapping, measureMapping, b);
      ArchiveOfAppend([], SweepVisits(servers[..i], testMapping, measureMapping, b), visits, timeline, b);
      i := i + 1;
    }
    assert servers[..i] == servers;
    archive := Some(zip);
  }
}
