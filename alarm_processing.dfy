/** The alarm half of AlarmProcessingService: the alarm feed is grouped by a
    component-test-measure-info key, and every group becomes one JSON bundle in
    a ZIP archive, holding a representative alarm, the request metadata and
    three independently fetched enrichments (historical data, detailed
    diagnosis, measure graph). */
module AlarmProcessing {
  import opened Wrappers
  import opened Text
  import opened Json
  import opened Archive
  import opened Seqs

  /** AlarmHistoryRecord: one alarm of the feed. Every field may be null. */
  datatype AlarmRecord = AlarmRecord(
    componentName: Option<string>,
    componentType: Option<string>,
    test: Option<string>,
    measure: Option<string>,
    info: Option<string>,
    priority: Option<string>,
    layer: Option<string>,
    description: Option<string>,
    startTime: Option<string>,
    duration: Option<string>,
    repeatCount: Option<int>)

  // ---------------------------------------------------------------- grouping

  /** The "%s-%s-%s-%s" key of a record; a null field prints as "null". */
  function KeyOf(a: AlarmRecord): string {
    Str(a.componentName) + "-" + Str(a.test) + "-" + Str(a.measure) + "-" + Str(a.info)
  }

  /** The key starts with the component name and ends with the descriptor, each
      cut off by a '-'; what lies between is test and measure. */
  lemma KeyOfParts(a: AlarmRecord)
    ensures var k := KeyOf(a);
      |k| == |Str(a.componentName)| + |Str(a.test)| + |Str(a.measure)| + |Str(a.info)| + 3 &&
      k[..|Str(a.componentName)|] == Str(a.componentName) &&
      k[|Str(a.componentName)|] == '-' &&
      k[|Str(a.componentName)| + 1..|k| - |Str(a.info)| - 1] == Str(a.test) + "-" + Str(a.measure) &&
      k[|k| - |Str(a.info)| - 1] == '-' &&
      k[|k| - |Str(a.info)|..] == Str(a.info)
  {
    var c, t, m, i := Str(a.componentName), Str(a.test), Str(a.measure), Str(a.info);
    assert KeyOf(a) == c + "-" + (t + "-" + m) + "-" + i;
  }

  /** The keys that occur in the feed. */
  function KeySet(feed: seq<AlarmRecord>): set<string> {
    set i | 0 <= i < |feed| :: KeyOf(feed[i])
  }

  /** The records of the feed whose key is k, in feed order. */
  function Members(feed: seq<AlarmRecord>, k: string): (r: seq<AlarmRecord>)
  {
    if feed == [] then []
    else
      var last := feed[|feed| - 1];
      var rest := Members(feed[..|feed| - 1], k);
      if KeyOf(last) == k then rest + [last] else rest
  }

  /** The map groupAlarms builds: every key of the feed to its records. */
  function Grouping(feed: seq<AlarmRecord>): map<string, seq<AlarmRecord>> {
    map k | k in KeySet(feed) :: Members(feed, k)
  }

  lemma {:induction false} MembersEmptyOffKey(feed: seq<AlarmRecord>, k: string)
    requires k !in KeySet(feed)
    ensures Members(feed, k) == []
  {
    if feed != [] {
      var init := feed[..|feed| - 1];
      assert KeySet(init) <= KeySet(feed) by {
        forall x | x in KeySet(init) ensures x in KeySet(feed) {
          var i :| 0 <= i < |init| && KeyOf(init[i]) == x;
          assert feed[i] == init[i];
        }
      }
      assert KeyOf(feed[|feed| - 1]) in KeySet(feed);
      MembersEmptyOffKey(init, k);
    }
  }

  /** Adding one record appends it to the list of its key and leaves every
      other list as it was (computeIfAbsent(key, ...).add(record)). */
  lemma GroupingSnoc(feed: seq<AlarmRecord>, a: AlarmRecord)
    ensures Grouping(feed + [a]) ==
      Grouping(feed)[KeyOf(a) := (if KeyOf(a) in Grouping(feed) then Grouping(feed)[KeyOf(a)] else []) + [a]]
  {
    var g, g2 := Grouping(feed), Grouping(feed + [a]);
    var r := g[KeyOf(a) := (if KeyOf(a) in g then g[KeyOf(a)] else []) + [a]];
    KeySetSnoc(feed, a);
    assert g2.Keys == r.Keys;
    forall k | k in g2
      ensures g2[k] == r[k]
    {
      MembersSnocKey(feed, a, k);
    }
  }

  /** The records of one key after one more record, in terms of the feed
      before it. */
  lemma MembersSnocKey(feed: seq<AlarmRecord>, a: AlarmRecord, k: string)
    ensures Members(feed + [a], k) ==
      if k != KeyOf(a) then Members(feed, k)
      else (if k in KeySet(feed) then Members(feed, k) else []) + [a]
  {
    MembersSnoc(feed, a, k);
    if k == KeyOf(a) && k !in KeySet(feed) {
      MembersEmptyOffKey(feed, k);
    }
  }

  lemma KeySetSnoc(feed: seq<AlarmRecord>, a: AlarmRecord)
    ensures KeySet(feed + [a]) == KeySet(feed) + {KeyOf(a)}
  {
    var s := feed + [a];
    forall x | x in KeySet(s) ensures x in KeySet(feed) + {KeyOf(a)} {
      var i :| 0 <= i < |s| && KeyOf(s[i]) == x;
      if i < |feed| { assert s[i] == feed[i]; }
    }
    forall x | x in KeySet(feed) ensures x in KeySet(s) {
      var i :| 0 <= i < |feed| && KeyOf(feed[i]) == x;
      assert s[i] == feed[i];
    }
    assert s[|feed|] == a;
  }

  lemma MembersSnoc(feed: seq<AlarmRecord>, a: AlarmRecord, k: string)
    ensures Members(feed + [a], k) == if KeyOf(a) == k then Members(feed, k) + [a] else Members(feed, k)
  {
    var s := feed + [a];
    assert s[..|s| - 1] == feed;
  }

  /** The grouping of a history that may be null (or have a null
      problemDetails list). */
  function Groups(history: Option<seq<AlarmRecord>>): map<string, seq<AlarmRecord>> {
    if history.None? then map[] else Grouping(history.value)
  }

  /** groupAlarms: a null history (or a null problemDetails list) gives an empty
      map; otherwise each record is appended to the list of its key. */
  method GroupAlarms(history: Option<seq<AlarmRecord>>) returns (grouped: map<string, seq<AlarmRecord>>)
    ensures history.None? ==> grouped == map[]
    ensures history.Some? ==> grouped == Grouping(history.value)
  {
    grouped := map[];
    if history.None? {
      return;
    }
    var feed := history.value;
    var i := 0;
    GroupingEmpty(feed[..0]);
    while i < |feed|
      invariant 0 <= i <= |feed|
      invariant grouped == Grouping(feed[..i])
    {
      var k := KeyOf(feed[i]);
      var list := if k in grouped then grouped[k] else [];
      grouped := grouped[k := list + [feed[i]]];
      GroupingSnoc(feed[..i], feed[i]);
      PrefixSnoc(feed, i);
      i := i + 1;
    }
    assert feed[..i] == feed;
  }

  lemma GroupingEmpty(feed: seq<AlarmRecord>)
    requires feed == []
    ensures Grouping(feed) == map[]
  {
    assert KeySet(feed) == {};
  }


  /** Every record lies in the list of its own key, and every list holds only
      records of the feed that carry that list's key. */
  lemma GroupingPartitions(feed: seq<AlarmRecord>)
    ensures forall i :: 0 <= i < |feed| ==> KeyOf(feed[i]) in Grouping(feed) && feed[i] in Grouping(feed)[KeyOf(feed[i])]
    ensures forall k, a :: k in Grouping(feed) && a in Grouping(feed)[k] ==> a in feed && KeyOf(a) == k
  {
    forall i | 0 <= i < |feed| ensures feed[i] in Members(feed, KeyOf(feed[i])) {
      MemberOfOwnKey(feed, i);
    }
    forall k | k in Grouping(feed) {
      MembersCarryKey(feed, k);
    }
  }

  /** The list of a key holds only records of the feed with that key. */
  lemma {:induction false} MembersCarryKey(feed: seq<AlarmRecord>, k: string)
    ensures |Members(feed, k)| <= |feed|
    ensures forall a :: a in Members(feed, k) ==> a in feed && KeyOf(a) == k
  {
    if feed != [] {
      var init := feed[..|feed| - 1];
      MembersCarryKey(init, k);
      forall a | a in init ensures a in feed {
        var j :| 0 <= j < |init| && init[j] == a;
        assert feed[j] == a;
      }
    }
  }

  lemma {:induction false} MemberOfOwnKey(feed: seq<AlarmRecord>, i: int)
    requires 0 <= i < |feed|
    ensures feed[i] in Members(feed, KeyOf(feed[i]))
  {
    if i < |feed| - 1 {
      var init := feed[..|feed| - 1];
      assert init[i] == feed[i];
      MemberOfOwnKey(init, i);
    }
  }

  /** No list of the grouping is empty. */
  lemma GroupsNonEmpty(feed: seq<AlarmRecord>)
    ensures forall k :: k in Grouping(feed) ==> |Grouping(feed)[k]| > 0
  {
    forall k | k in Grouping(feed) ensures |Members(feed, k)| > 0 {
      var i :| 0 <= i < |feed| && KeyOf(feed[i]) == k;
      MemberOfOwnKey(feed, i);
    }
  }

  /** The total size of the lists named by keys. */
  function SizeSum(feed: seq<AlarmRecord>, keys: seq<string>): nat {
    if keys == [] then 0 else |Members(feed, keys[0])| + SizeSum(feed, keys[1..])
  }

  predicate Distinct(keys: seq<string>) {
    forall i, j :: 0 <= i < j < |keys| ==> keys[i] != keys[j]
  }

  /** The keys list each key of the grouping exactly once: a HashMap's entry
      order. */
  predicate Enumerates(keys: seq<string>, ks: set<string>) {
    Distinct(keys) && (forall i :: 0 <= i < |keys| ==> keys[i] in ks) && (forall k :: k in ks ==> k in keys)
  }

  lemma {:induction false} SizeSumSnoc(feed: seq<AlarmRecord>, a: AlarmRecord, keys: seq<string>)
    requires Distinct(keys)
    ensures SizeSum(feed + [a], keys) == SizeSum(feed, keys) + (if KeyOf(a) in keys then 1 else 0)
  {
    var s := feed + [a];
    assert s[..|s| - 1] == feed;
    if keys != [] {
      assert Distinct(keys[1..]) by {
        forall i, j | 0 <= i < j < |keys[1..]| ensures keys[1..][i] != keys[1..][j] {
          assert keys[1..][i] == keys[i + 1] && keys[1..][j] == keys[j + 1];
        }
      }
      SizeSumSnoc(feed, a, keys[1..]);
      assert KeyOf(a) in keys <==> KeyOf(a) == keys[0] || KeyOf(a) in keys[1..] by {
        assert keys == [keys[0]] + keys[1..];
      }
      assert keys[0] !in keys[1..] by {
        forall j | 0 <= j < |keys| - 1 ensures keys[1..][j] != keys[0] {
          assert keys[1..][j] == keys[j + 1];
        }
      }
    }
  }

  lemma {:induction false} SizeSumCovers(feed: seq<AlarmRecord>, keys: seq<string>)
    requires Distinct(keys)
    requires forall i :: 0 <= i < |feed| ==> KeyOf(feed[i]) in keys
    ensures SizeSum(feed, keys) == |feed|
  {
    if feed == [] {
      EmptyFeedSum(keys);
    } else {
      var init := feed[..|feed| - 1];
      var a := feed[|feed| - 1];
      assert init + [a] == feed;
      forall i | 0 <= i < |init| ensures KeyOf(init[i]) in keys {
        assert init[i] == feed[i];
      }
      SizeSumCovers(init, keys);
      SizeSumSnoc(init, a, keys);
    }
  }

  lemma {:induction false} EmptyFeedSum(keys: seq<string>)
    ensures SizeSum([], keys) == 0
  {
    if keys != [] {
      EmptyFeedSum(keys[1..]);
    }
  }

  /** The list sizes add up to the length of the feed. */
  lemma GroupSizesSum(feed: seq<AlarmRecord>, keys: seq<string>)
    requires Enumerates(keys, KeySet(feed))
    ensures SizeSum(feed, keys) == |feed|
  {
    forall i | 0 <= i < |feed| ensures KeyOf(feed[i]) in keys {
      assert KeyOf(feed[i]) in KeySet(feed);
    }
    SizeSumCovers(feed, keys);
  }

  /** Two alarms whose fields differ can share a key, because the fields are
      joined with a separator that may occur inside them. */
  lemma KeyCollision()
    ensures
      var a := AlarmRecord(Some("a-b"), None, Some("c"), Some("d"), Some("e"), None, None, None, None, None, None);
      var b := AlarmRecord(Some("a"), None, Some("b-c"), Some("d"), Some("e"), None, None, None, None, None, None);
      a != b && KeyOf(a) == KeyOf(b)
  {
    var a := AlarmRecord(Some("a-b"), None, Some("c"), Some("d"), Some("e"), None, None, None, None, None, None);
    var b := AlarmRecord(Some("a"), None, Some("b-c"), Some("d"), Some("e"), None, None, None, None, None, None);
    assert KeyOf(a) == "a-b-c-d-e";
    assert KeyOf(b) == "a-b-c-d-e";
  }

  // ----------------------------------------------------------- requests

  /** The window in hours: 1 by default; when the start time is present,
      non-empty and parses, the hours elapsed since then clamped to [1, 24].
      hoursSince stands for the parse with pattern "MMM dd, yyyy HH:mm" and
      ChronoUnit.HOURS.between(start, now); None is a parse failure. */
  function FetchWindow(startTime: Option<string>, hoursSince: string -> Option<int>): (h: int)
    ensures 1 <= h <= 24
    ensures startTime.None? || startTime == Some("") ==> h == 1
    ensures startTime.Some? && startTime.value != "" && hoursSince(startTime.value).None? ==> h == 1
    ensures startTime.Some? && startTime.value != "" && hoursSince(startTime.value).Some? ==>
      var e := hoursSince(startTime.value).value;
      (1 <= e <= 24 ==> h == e) && (e < 1 ==> h == 1) && (e > 24 ==> h == 24)
  {
    if startTime.None? || startTime.value == "" then 1
    else match hoursSince(startTime.value)
      case None => 1
      case Some(e) => if e < 1 then 1 else if e > 24 then 24 else e
  }

  /** The timeline string of all three requests. */
  function Timeline(hours: int): string {
    IntToString(hours) + " hours"
  }

  /** The component type sent with the requests: when it holds a comma, the
      trimmed text before the first comma; otherwise the type itself. */
  function CanonicalType(t: string): (r: string)
    ensures ',' !in t ==> r == t
    ensures ',' in t ==> ',' !in r && r == Trim(t[..IndexOf(t, ',')])
    ensures ',' in t ==> r == [] || (r[0] > ' ' && r[|r| - 1] > ' ')
  {
    var c := IndexOf(t, ',');
    if c != -1 then
      var r := Trim(t[..c]);
      assert ',' !in r by {
        TrimOccurs(t[..c]);
        var i :| OccursAt(t[..c], r, i);
        assert forall j :: 0 <= j < |r| ==> r[j] == t[..c][i + j];
      }
      r
    else t
  }

  /** HistoricalDataRequestBody, the "metaData" of a bundle. */
  datatype HistReq = HistReq(
    timeline: string, componentName: Option<string>, componentType: string,
    test: Option<string>, measure: Option<string>, showDisplayName: bool)

  /** DiagnosisDataRequestBody. */
  datatype DiagReq = DiagReq(
    timeline: string, componentName: Option<string>, componentType: string,
    test: Option<string>, measure: Option<string>, info: Option<string>, showDisplayName: bool)

  /** The parameter map of the measure-graph call. */
  datatype GraphReq = GraphReq(
    timeline: string, componentName: Option<string>, componentType: string,
    test: Option<string>, measure: Option<string>)

  datatype Requests = Requests(history: HistReq, diagnosis: DiagReq, graph: GraphReq)

  /** The three requests made for a group's representative. */
  function RequestsFor(first: AlarmRecord, componentType: string, hours: int): (r: Requests)
    ensures r.history.timeline == r.diagnosis.timeline == r.graph.timeline == Timeline(hours)
    ensures r.history.componentName == r.diagnosis.componentName == r.graph.componentName == first.componentName
    ensures r.history.componentType == r.diagnosis.componentType == r.graph.componentType == componentType
    ensures r.history.test == r.diagnosis.test == r.graph.test == first.test
    ensures r.history.measure == r.diagnosis.measure == r.graph.measure == first.measure
    ensures r.diagnosis.info == first.info
    ensures !r.history.showDisplayName && !r.diagnosis.showDisplayName
  {
    var tl := Timeline(hours);
    Requests(
      HistReq(tl, first.componentName, componentType, first.test, first.measure, false),
      DiagReq(tl, first.componentName, componentType, first.test, first.measure, first.info, false),
      GraphReq(tl, first.componentName, componentType, first.test, first.measure))
  }

  // ------------------------------------------------------------ bundles

  /** The remote calls of GenericApiRepository. The graph call yields the
      Base64 text of the image bytes, or None when the bytes are null. */
  datatype Backend = Backend(
    history: HistReq -> Outcome<Json>,
    diagnosis: DiagReq -> Outcome<Json>,
    graph: GraphReq -> Outcome<Option<string>>)

  /** One enrichment of a bundle: its payload key, its "...Error" key with the
      exception message, or neither key. */
  datatype Slot<T> = Filled(payload: T) | Error(msg: string) | Absent

  /** The historical-data slot: ComponentNotAssociatedException stores nothing;
      every other exception stores "historicalDataError". */
  function HistorySlot(o: Outcome<Json>): (s: Slot<Json>)
    ensures s.Filled? <==> o.Ok?
    ensures s.Absent? <==> o.ComponentNotAssociated?
    ensures s.Error? <==> o.TestNotAssociated? || o.Failed?
    ensures s.Filled? ==> s.payload == o.value
    ensures s.Error? ==> s.msg == o.Message()
  {
    match o
    case Ok(p) => Filled(p)
    case ComponentNotAssociated(_) => Absent
    case TestNotAssociated(m) => Error(m)
    case Failed(m) => Error(m)
  }

  /** The diagnosis slot: every exception stores "diagnosisDataError". */
  function DiagnosisSlot(o: Outcome<Json>): (s: Slot<Json>)
    ensures !s.Absent?
    ensures s.Filled? <==> o.Ok?
    ensures s.Filled? ==> s.payload == o.value
    ensures s.Error? ==> s.msg == o.Message()
  {
    if o.Ok? then Filled(o.value) else Error(o.Message())
  }

  /** The graph slot: null bytes store nothing; an exception stores
      "measureGraphError". */
  function GraphSlot(o: Outcome<Option<string>>): (s: Slot<string>)
    ensures s.Absent? <==> o == Ok(None)
    ensures s.Filled? <==> o.Ok? && o.value.Some?
    ensures s.Filled? ==> o == Ok(Some(s.payload))
    ensures s.Error? <==> !o.Ok?
  {
    match o
    case Ok(None) => Absent
    case Ok(Some(b)) => Filled(b)
    case _ => Error(o.Message())
  }

  /** The serializedData map of one group. */
  datatype Bundle = Bundle(
    groupId: string,
    key: string,
    representativeAlert: AlarmRecord,
    metaData: HistReq,
    historicalData: Slot<Json>,
    diagnosisData: Slot<Json>,
    measureGraph: Slot<string>)

  /** The characters normalize replaces. */
  predicate Forbidden(c: char) {
    c == ' ' || c == ':' || c == '/' || c == '\\' || c == '#'
  }

  /** normalize: space, ':', '/', '\' and '#' each become '_'. */
  function Normalize(s: string): (r: string)
    ensures |r| == |s|
    ensures forall i :: 0 <= i < |s| ==> r[i] == if Forbidden(s[i]) then '_' else s[i]
    ensures forall i :: 0 <= i < |r| ==> !Forbidden(r[i])
  {
    ReplaceChar(ReplaceChar(ReplaceChar(ReplaceChar(ReplaceChar(s, ' ', '_'), ':', '_'), '/', '_'), '\\', '_'), '#', '_')
  }

  lemma NormalizeIdempotent(s: string)
    ensures Normalize(Normalize(s)) == Normalize(s)
  {
    var n := Normalize(s);
    assert forall i :: 0 <= i < |n| ==> Normalize(n)[i] == n[i];
  }

  /** Normalisation works character by character, so it distributes over
      concatenation, and a text free of the five characters is left as is. */
  lemma NormalizeAppend(a: string, t: string)
    requires Clean(t)
    ensures Normalize(a + t) == Normalize(a) + t
  {
    var l, r := Normalize(a + t), Normalize(a) + t;
    forall i | 0 <= i < |a + t| ensures l[i] == r[i] {
      if i < |a| { assert (a + t)[i] == a[i]; } else { assert (a + t)[i] == t[i - |a|]; }
    }
  }

  /** The name of the archive file. */
  function ZipName(fileName: string, timestamp: string): (r: string)
    ensures Clean(r)
    ensures EndsWith(r, ".zip")
  {
    NormalizeAppend("alarm_analysis_" + fileName + "_" + timestamp, ".zip");
    Normalize("alarm_analysis_" + fileName + "_" + timestamp + ".zip")
  }

  /** No character that normalize replaces. */
  predicate Clean(s: string) {
    forall i :: 0 <= i < |s| ==> !Forbidden(s[i])
  }

  /** The name of a group's entry, "<key>.<groupId>.json" normalized. */
  function EntryName(key: string, groupId: string): (r: string)
    ensures Clean(r)
  {
    Normalize(key + "." + groupId + ".json")
  }

  /** A group id free of the five characters ends its entry name unchanged. */
  lemma EntryNameEnds(key: string, groupId: string)
    requires Clean(groupId)
    ensures EndsWith(EntryName(key, groupId), "." + groupId + ".json")
  {
    var t := "." + groupId + ".json";
    forall i | 0 <= i < |t| ensures !Forbidden(t[i]) {
      if 0 < i <= |groupId| { assert t[i] == groupId[i - 1]; }
    }
    NormalizeAppend(key, t);
    assert key + "." + groupId + ".json" == key + t;
  }

  /** The body of the group loop: an empty group is skipped; otherwise the
      first record, with its repeatCount set to the group size, represents the
      group. A null component type throws at indexOf, which the per-group
      catch swallows, so the group gives no entry. */
  function GroupEntry(key: string, group: seq<AlarmRecord>, groupId: string,
                      hoursSince: string -> Option<int>, backend: Backend): (r: Option<Entry<Bundle>>)
    ensures r.Some? <==> group != [] && group[0].componentType.Some?
    ensures r.Some? ==> r.value.name == EntryName(key, groupId)
  {
    if group == [] then None
    else
      var first := group[0].(repeatCount := Some(|group|));
      match first.componentType
      case None => None
      case Some(t) =>
        var rq := RequestsFor(first, CanonicalType(t), FetchWindow(first.startTime, hoursSince));
        Some(Entry(EntryName(key, groupId), Bundle(
          groupId, key, first, rq.history,
          HistorySlot(backend.history(rq.history)),
          DiagnosisSlot(backend.diagnosis(rq.diagnosis)),
          GraphSlot(backend.graph(rq.graph)))))
  }

  /** What a group's bundle holds: its id and key, the first record with
      repeatCount set to the group size, and the request metadata with the
      window and the canonical component type. */
  lemma GroupBundle(key: string, group: seq<AlarmRecord>, groupId: string,
                    hoursSince: string -> Option<int>, backend: Backend)
    requires GroupEntry(key, group, groupId, hoursSince, backend).Some?
    ensures var b := GroupEntry(key, group, groupId, hoursSince, backend).value.content;
      b.groupId == groupId && b.key == key &&
      b.representativeAlert == group[0].(repeatCount := Some(|group|)) &&
      b.metaData.timeline == Timeline(FetchWindow(group[0].startTime, hoursSince)) &&
      b.metaData.componentName == group[0].componentName &&
      b.metaData.componentType == CanonicalType(group[0].componentType.value) &&
      b.metaData.test == group[0].test && b.metaData.measure == group[0].measure
  {
  }

  /** The entry of each group of the iteration order, or None for a group
      that wrote nothing. */
  function GroupEntries(groups: map<string, seq<AlarmRecord>>, order: seq<string>, ids: seq<string>,
                        hoursSince: string -> Option<int>, backend: Backend): (es: seq<Option<Entry<Bundle>>>)
    requires |order| == |ids|
    requires forall i :: 0 <= i < |order| ==> order[i] in groups
    ensures |es| == |order|
  {
    seq(|order|, j requires 0 <= j < |order| => GroupEntry(order[j], groups[order[j]], ids[j], hoursSince, backend))
  }

  /** Entry names of distinct, equally long, clean group ids differ, since
      each id ends its name. */
  lemma DistinctIdsDistinctNames(k1: string, id1: string, k2: string, id2: string)
    requires Clean(id1) && Clean(id2) && |id1| == |id2| && id1 != id2
    ensures EntryName(k1, id1) != EntryName(k2, id2)
  {
    EntryNameEnds(k1, id1);
    EntryNameEnds(k2, id2);
    var t1, t2 := "." + id1 + ".json", "." + id2 + ".json";
    assert t1[1..|t1| - 5] == id1 && t2[1..|t2| - 5] == id2;
  }

  /** With distinct group ids of one length that hold none of the five
      characters (the UUIDs the source draws), no entry name repeats, so every
      group whose component type is set gets its own entry, in iteration
      order. */
  lemma AllGroupsArchived(groups: map<string, seq<AlarmRecord>>, order: seq<string>, ids: seq<string>,
                          hoursSince: string -> Option<int>, backend: Backend)
    requires |order| == |ids|
    requires forall i :: 0 <= i < |order| ==> order[i] in groups
    requires Distinct(ids)
    requires forall i :: 0 <= i < |ids| ==> Clean(ids[i]) && |ids[i]| == |ids[0]|
    ensures var es := GroupEntries(groups, order, ids, hoursSince, backend);
      PutEach([], es) == Somes(es) &&
      forall j :: 0 <= j < |order| && es[j].Some? ==> es[j].value in PutEach([], es)
  {
    var es := GroupEntries(groups, order, ids, hoursSince, backend);
    forall i, j | 0 <= i < j < |es| && es[i].Some? && es[j].Some?
      ensures es[i].value.name != es[j].value.name
    {
      assert es[i].value.name == EntryName(order[i], ids[i]) && es[j].value.name == EntryName(order[j], ids[j]);
      DistinctIdsDistinctNames(order[i], ids[i], order[j], ids[j]);
    }
    PutEachKeepsAll(es);
  }

  /** A group's first record carries the group's key, so the representative
      stands for the whole group. */
  lemma RepresentativeKey(feed: seq<AlarmRecord>, k: string)
    requires k in Grouping(feed)
    ensures |Grouping(feed)[k]| > 0 && KeyOf(Grouping(feed)[k][0]) == k
  {
    GroupsNonEmpty(feed);
    MembersCarryKey(feed, k);
    assert Grouping(feed)[k][0] in Members(feed, k);
  }

  /** A failing fetch touches only its own slot: the diagnosis and graph slots
      depend on their own calls alone, whatever the history call does, and
      likewise for the other two. */
  lemma SlotsIndependent(key: string, group: seq<AlarmRecord>, groupId: string,
                         hoursSince: string -> Option<int>, b1: Backend, b2: Backend)
    requires GroupEntry(key, group, groupId, hoursSince, b1).Some?
    ensures GroupEntry(key, group, groupId, hoursSince, b2).Some?
    ensures var e1, e2 := GroupEntry(key, group, groupId, hoursSince, b1).value.content,
                          GroupEntry(key, group, groupId, hoursSince, b2).value.content;
      (b1.history == b2.history ==> e1.historicalData == e2.historicalData) &&
      (b1.diagnosis == b2.diagnosis ==> e1.diagnosisData == e2.diagnosisData) &&
      (b1.graph == b2.graph ==> e1.measureGraph == e2.measureGraph) &&
      e1.representativeAlert == e2.representativeAlert && e1.metaData == e2.metaData
  {
  }

  lemma GroupEntriesSnoc(groups: map<string, seq<AlarmRecord>>, order: seq<string>, ids: seq<string>,
                         hoursSince: string -> Option<int>, backend: Backend, c: nat)
    requires c < |order| == |ids|
    requires forall i :: 0 <= i < |order| ==> order[i] in groups
    ensures var es := GroupEntries(groups, order, ids, hoursSince, backend);
      es[..c + 1] == es[..c] + [GroupEntry(order[c], groups[order[c]], ids[c], hoursSince, backend)]
  {
  }

  /** The group loop: each group's bundle is written in iteration order. */
  method WriteGroups(groups: map<string, seq<AlarmRecord>>, order: seq<string>, ids: seq<string>,
                     hoursSince: string -> Option<int>, backend: Backend) returns (zip: seq<Entry<Bundle>>)
    requires |order| == |ids|
    requires forall i :: 0 <= i < |order| ==> order[i] in groups
    ensures zip == PutEach([], GroupEntries(groups, order, ids, hoursSince, backend))
  {
    zip := [];
    ghost var es := GroupEntries(groups, order, ids, hoursSince, backend);
    var c := 0;
    while c < |order|
      invariant 0 <= c <= |order|
      invariant zip == PutEach([], es[..c])
    {
      var key := order[c];
      var entry := GroupEntry(key, groups[key], ids[c], hoursSince, backend);
      GroupEntriesSnoc(groups, order, ids, hoursSince, backend, c);
      PutEachSnoc([], es[..c], entry);
      if entry.Some? {
        zip := Put(zip, entry.value.name, entry.value.content);
      }
      c := c + 1;
    }
    assert es[..c] == es;
  }

  /** analyzeGroupedAlarms. The map's iteration order and the UUID drawn for
      each group are inputs; archiveOpens is false when the ZIP file cannot be
      created, in which case the failure is only logged. */
  method AnalyzeGroupedAlarms(fileName: string, timestamp: string, history: Option<seq<AlarmRecord>>,
                              order: seq<string>, ids: seq<string>, hoursSince: string -> Option<int>,
                              backend: Backend, archiveOpens: bool)
    returns (zipName: string, archive: Option<seq<Entry<Bundle>>>)
    requires Enumerates(order, Groups(history).Keys)
    requires |ids| == |order|
    ensures zipName == ZipName(fileName, timestamp)
    ensures archive.None? <==> !archiveOpens
    ensures archive.Some? ==> archive.value == PutEach([], GroupEntries(Groups(history), order, ids, hoursSince, backend))
    ensures archive.Some? ==> DistinctNames(archive.value)
    ensures archive.Some? && history.None? ==> archive.value == []
  {
    var groups := GroupAlarms(history);
    zipName := ZipName(fileName, timestamp);
    if !archiveOpens {
      return zipName, None;
    }
    forall i | 0 <= i < |order| ensures order[i] in groups {
      assert order[i] in Groups(history).Keys;
    }
    var zip := WriteGroups(groups, order, ids, hoursSince, backend);
    PutEachDistinct([], GroupEntries(groups, order, ids, hoursSince, backend));
    archive := Some(zip);
  }
}
