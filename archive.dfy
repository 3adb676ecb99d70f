/** A ZIP archive being written with java.util.zip.ZipOutputStream, seen as the
    sequence of its entries in the order they were put. */
module Archive {
  import opened Wrappers

  datatype Entry<T> = Entry(name: string, content: T)

  /** No two entries share a name: ZipOutputStream refuses a duplicate. */
  predicate DistinctNames<T>(zip: seq<Entry<T>>) {
    forall i, j :: 0 <= i < j < |zip| ==> zip[i].name != zip[j].name
  }

  predicate HasName<T>(zip: seq<Entry<T>>, name: string) {
    exists i :: 0 <= i < |zip| && zip[i].name == name
  }

  /** putNextEntry, write, closeEntry: a new name is appended; a name already in
      the archive makes putNextEntry throw a ZipException ("duplicate entry"),
      which the callers catch, so the archive stays as it was. */
  function Put<T>(zip: seq<Entry<T>>, name: string, content: T): (r: seq<Entry<T>>)
    ensures HasName(r, name)
    ensures HasName(zip, name) ==> r == zip
    ensures !HasName(zip, name) ==> r == zip + [Entry(name, content)]
  {
    if HasName(zip, name) then zip
    else
      var r := zip + [Entry(name, content)];
      assert r[|zip|].name == name;
      r
  }

  /** Put keeps the names of the archive distinct. */
  lemma PutDistinct<T>(zip: seq<Entry<T>>, name: string, content: T)
    requires DistinctNames(zip)
    ensures DistinctNames(Put(zip, name, content))
  {
  }

  /** Entries put one after the other; None is a step that wrote nothing. */
  function PutEach<T>(zip: seq<Entry<T>>, es: seq<Option<Entry<T>>>): (r: seq<Entry<T>>)
    ensures |r| <= |zip| + |es|
  {
    if es == [] then zip
    else
      var init := PutEach(zip, es[..|es| - 1]);
      match es[|es| - 1]
      case None => init
      case Some(e) => Put(init, e.name, e.content)
  }

  lemma PutEachSnoc<T>(zip: seq<Entry<T>>, es: seq<Option<Entry<T>>>, e: Option<Entry<T>>)
    ensures PutEach(zip, es + [e]) == if e.Some? then Put(PutEach(zip, es), e.value.name, e.value.content) else PutEach(zip, es)
  {
    assert (es + [e])[..|es|] == es;
  }

  lemma {:induction false} PutEachDistinct<T>(zip: seq<Entry<T>>, es: seq<Option<Entry<T>>>)
    requires DistinctNames(zip)
    ensures DistinctNames(PutEach(zip, es))
  {
    if es != [] {
      PutEachDistinct(zip, es[..|es| - 1]);
      if es[|es| - 1].Some? {
        PutDistinct(PutEach(zip, es[..|es| - 1]), es[|es| - 1].value.name, es[|es| - 1].value.content);
      }
    }
  }

  /** The entries that were produced, in order. */
  function Somes<T>(es: seq<Option<Entry<T>>>): (r: seq<Entry<T>>)
    ensures |r| <= |es|
    ensures forall p :: 0 <= p < |r| ==> exists i :: 0 <= i < |es| && es[i] == Some(r[p])
    ensures forall i :: 0 <= i < |es| && es[i].Some? ==> es[i].value in r
  {
    if es == [] then []
    else
      var init := Somes(es[..|es| - 1]);
      assert forall i :: 0 <= i < |es| - 1 ==> es[..|es| - 1][i] == es[i];
      match es[|es| - 1]
      case None => init
      case Some(e) =>
        var r := init + [e];
        assert forall p :: 0 <= p < |init| ==> r[p] == init[p];
        r
  }

  /** When the produced entries have pairwise different names, none is
      dropped: the archive holds exactly the produced entries, in order. */
  lemma {:induction false} PutEachKeepsAll<T>(es: seq<Option<Entry<T>>>)
    requires forall i, j :: 0 <= i < j < |es| && es[i].Some? && es[j].Some? ==> es[i].value.name != es[j].value.name
    ensures PutEach([], es) == Somes(es)
  {
    if es != [] {
      var init := es[..|es| - 1];
      PutEachKeepsAll(init);
      var prev := Somes(init);
      if es[|es| - 1].Some? {
        var e := es[|es| - 1].value;
        forall p | 0 <= p < |prev| ensures prev[p].name != e.name {
          var i :| 0 <= i < |init| && init[i] == Some(prev[p]);
          assert es[i] == init[i];
        }
        assert Entry(e.name, e.content) == e;
      }
    }
  }
}
