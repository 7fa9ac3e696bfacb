/**
 The index builder of script/preprocess_data.py: from the raw idiom records to a
 map from first character to the deduplicated, sorted list of four-character
 idioms that start with it. Reading and writing the JSON files is not modelled;
 the record list comes in as a parameter and the index goes out as the result.
 */
module PreprocessData {
  import opened Builtins
  import opened Sorting

  /** The value under a record's field: a JSON string, or any other JSON value. */
  datatype Field = Text(text: string) | NonText

  /** One item of the raw list: a JSON object (a Python dict), or anything else. */
  datatype RawRecord = Object(fields: map<string, Field>) | NonObject

  /** What the first loop does with one item: skip it, index an idiom, or fail on `.strip()`. */
  datatype Scan = Skip | Keep(idiom: string) | Raise

  /**
   Result of the build: the index, or the position of the record whose `word`
   is not a string, where calling `.strip()` raises and the script stops.
   */
  datatype Outcome = Indexed(index: map<string, seq<string>>) | Raised(at: nat)

  function Classify(item: RawRecord, strip: string -> string): Scan
  {
    match item
    case NonObject => Skip
    case Object(fields) =>
      if "word" !in fields then Skip
      else match fields["word"]
        case NonText => Raise
        case Text(s) => if |strip(s)| == 4 then Keep(strip(s)) else Skip
  }

  /** No record before position `n` makes the script raise. */
  predicate NoRaiseBefore(rawIdioms: seq<RawRecord>, strip: string -> string, n: nat)
    requires n <= |rawIdioms|
  {
    forall j :: 0 <= j < n ==> !Classify(rawIdioms[j], strip).Raise?
  }

  /** The idioms the first loop appends, in order (records that raise are passed over). */
  function Accepted(rawIdioms: seq<RawRecord>, strip: string -> string): (ws: seq<string>)
    ensures forall w :: w in ws ==> |w| == 4
  {
    if rawIdioms == [] then []
    else
      var n := |rawIdioms| - 1;
      Accepted(rawIdioms[..n], strip) + match Classify(rawIdioms[n], strip) { case Keep(w) => [w] case _ => [] }
  }

  /** The idioms of `ws` whose first character is `k`, in their order in `ws`. */
  function Bucket(ws: seq<string>, k: string): (b: seq<string>)
    ensures forall w :: w in b <==> w in ws && |w| > 0 && Key(w) == k
  {
    if ws == [] then []
    else
      var n := |ws| - 1;
      Bucket(ws[..n], k) + if |ws[n]| > 0 && Key(ws[n]) == k then [ws[n]] else []
  }

  /** `index` is what appending every idiom of `ws` to its first character's list produces. */
  ghost predicate GroupedBy(index: map<string, seq<string>>, ws: seq<string>)
  {
    forall k :: (k in index <==> Bucket(ws, k) != []) && (k in index ==> index[k] == Bucket(ws, k))
  }

  /** `index` is the final index of `ws`: one strictly ascending, duplicate-free list per first character. */
  ghost predicate IsIndexOf(index: map<string, seq<string>>, ws: seq<string>)
  {
    forall k ::
      && (k in index <==> Bucket(ws, k) != [])
      && (k in index ==> StrictlyAscending(index[k]) && Elems(index[k]) == Elems(Bucket(ws, k)))
  }

  lemma AcceptedStep(rawIdioms: seq<RawRecord>, strip: string -> string, i: nat)
    requires i < |rawIdioms|
    ensures Accepted(rawIdioms[..i + 1], strip) ==
      Accepted(rawIdioms[..i], strip) + match Classify(rawIdioms[i], strip) { case Keep(w) => [w] case _ => [] }
  {
    assert rawIdioms[..i + 1][..i] == rawIdioms[..i];
  }

  lemma NoRaiseStep(rawIdioms: seq<RawRecord>, strip: string -> string, i: nat)
    requires i < |rawIdioms| && NoRaiseBefore(rawIdioms, strip, i)
    ensures !Classify(rawIdioms[i], strip).Raise? ==> NoRaiseBefore(rawIdioms, strip, i + 1)
  {
  }

  lemma BucketAppend(ws: seq<string>, w: string, k: string)
    ensures Bucket(ws + [w], k) == Bucket(ws, k) + if |w| > 0 && Key(w) == k then [w] else []
  {
    assert (ws + [w])[..|ws|] == ws;
  }

  /** One step of the first loop: appending `w` to its first character's list keeps `GroupedBy`. */
  lemma GroupedByAppend(index: map<string, seq<string>>, ws: seq<string>, w: string)
    requires GroupedBy(index, ws) && |w| > 0
    ensures GroupedBy(index[Key(w) := (if Key(w) in index then index[Key(w)] else []) + [w]], ws + [w])
  {
    var index' := index[Key(w) := (if Key(w) in index then index[Key(w)] else []) + [w]];
    forall k
      ensures (k in index' <==> Bucket(ws + [w], k) != []) && (k in index' ==> index'[k] == Bucket(ws + [w], k))
    {
      BucketAppend(ws, w, k);
    }
  }

  /** Lines 19-27: the loop that appends every accepted idiom to the list of its first character. */
  method GroupByFirstChar(rawIdioms: seq<RawRecord>, strip: string -> string) returns (r: Outcome)
    ensures r.Raised? ==> r.at < |rawIdioms| && Classify(rawIdioms[r.at], strip).Raise? && NoRaiseBefore(rawIdioms, strip, r.at)
    ensures r.Indexed? ==> NoRaiseBefore(rawIdioms, strip, |rawIdioms|) && GroupedBy(r.index, Accepted(rawIdioms, strip))
  {
    var indexDict: map<string, seq<string>> := map[];
    for i := 0 to |rawIdioms|
      invariant NoRaiseBefore(rawIdioms, strip, i)
      invariant GroupedBy(indexDict, Accepted(rawIdioms[..i], strip))
    {
      ghost var before := Accepted(rawIdioms[..i], strip);
      AcceptedStep(rawIdioms, strip, i);
      NoRaiseStep(rawIdioms, strip, i);
      var item := rawIdioms[i];
      if item.Object? && "word" in item.fields {
        var word := item.fields["word"];
        if word.NonText? {
          assert Classify(item, strip) == Raise;
          return Raised(i);
        }
        var idiom := strip(word.text);
        if |idiom| == 4 {
          assert Classify(item, strip) == Keep(idiom);
          assert Accepted(rawIdioms[..i + 1], strip) == before + [idiom];
          var firstChar := Key(idiom);
          GroupedByAppend(indexDict, before, idiom);
          var bucket := if firstChar in indexDict then indexDict[firstChar] else [];
          indexDict := indexDict[firstChar := bucket + [idiom]];
        } else {
          assert Classify(item, strip) == Skip;
          assert Accepted(rawIdioms[..i + 1], strip) == before;
        }
      } else {
        assert Classify(item, strip) == Skip;
        assert Accepted(rawIdioms[..i + 1], strip) == before;
      }
    }
    assert rawIdioms[..|rawIdioms|] == rawIdioms;
    return Indexed(indexDict);
  }

  /** Lines 30-31: every list replaced, in place, by its elements deduplicated and sorted. */
  method DedupAndSort(indexDict: map<string, seq<string>>) returns (sorted: map<string, seq<string>>)
    ensures sorted.Keys == indexDict.Keys
    ensures forall k :: k in sorted ==> StrictlyAscending(sorted[k]) && Elems(sorted[k]) == Elems(indexDict[k])
  {
    sorted := indexDict;
    var pending := indexDict.Keys;
    while pending != {}
      invariant pending <= indexDict.Keys == sorted.Keys
      invariant forall k :: k in pending ==> sorted[k] == indexDict[k]
      invariant forall k :: k in sorted && k !in pending ==>
        StrictlyAscending(sorted[k]) && Elems(sorted[k]) == Elems(indexDict[k])
      decreases pending
    {
      var key :| key in pending;
      sorted := sorted[key := SortUnique(sorted[key])];
      pending := pending - {key};
    }
  }

  /** Lines 19-31: both loops, without the file input and output. */
  method CreateIndexedDatabase(rawIdioms: seq<RawRecord>, strip: string -> string) returns (r: Outcome)
    ensures r.Raised? ==> r.at < |rawIdioms| && Classify(rawIdioms[r.at], strip).Raise? && NoRaiseBefore(rawIdioms, strip, r.at)
    ensures r.Indexed? ==> NoRaiseBefore(rawIdioms, strip, |rawIdioms|) && IsIndexOf(r.index, Accepted(rawIdioms, strip))
  {
    r := GroupByFirstChar(rawIdioms, strip);
    if r.Indexed? {
      var sorted := DedupAndSort(r.index);
      r := Indexed(sorted);
    }
  }

  /** Every indexed idiom comes from a dict whose `word` is a string that strips to it. */
  lemma {:induction false} AcceptedHasSource(rawIdioms: seq<RawRecord>, strip: string -> string, w: string)
    returns (j: nat)
    requires w in Accepted(rawIdioms, strip)
    ensures j < |rawIdioms| && ComesFrom(rawIdioms[j], strip, w)
  {
    var n := |rawIdioms| - 1;
    if w in Accepted(rawIdioms[..n], strip) {
      j := AcceptedHasSource(rawIdioms[..n], strip, w);
      assert rawIdioms[..n][j] == rawIdioms[j];
    } else {
      j := n;
    }
  }

  /** Every dict whose `word` is a string that strips to four characters has that idiom indexed. */
  lemma {:induction false} SourceIsAccepted(rawIdioms: seq<RawRecord>, strip: string -> string, w: string, j: nat)
    requires j < |rawIdioms| && ComesFrom(rawIdioms[j], strip, w)
    ensures w in Accepted(rawIdioms, strip)
  {
    var n := |rawIdioms| - 1;
    if j < n {
      assert rawIdioms[..n][j] == rawIdioms[j];
      SourceIsAccepted(rawIdioms[..n], strip, w, j);
    } else {
      assert Classify(rawIdioms[n], strip) == Keep(w);
    }
  }

  /** Record `item` is a dict whose `word` field is a string that strips to the four-character `w`. */
  predicate ComesFrom(item: RawRecord, strip: string -> string, w: string)
  {
    item.Object? && "word" in item.fields && item.fields["word"].Text?
    && strip(item.fields["word"].text) == w && |w| == 4
  }

  /**
   The shape of a finished index: every key's list is non-empty, every idiom in
   it has four characters and starts with the key, and every indexed idiom is
   in the list of its first character.
   */
  lemma IndexShape(index: map<string, seq<string>>, ws: seq<string>)
    requires IsIndexOf(index, ws)
    ensures forall k :: k in index ==> index[k] != []
    ensures forall k, w :: k in index && w in index[k] ==> w in ws && |w| > 0 && Key(w) == k
    ensures forall w :: w in ws && |w| > 0 ==> Key(w) in index && w in index[Key(w)]
  {
    forall k | k in index
      ensures index[k] != []
    {
      var b := Bucket(ws, k);
      assert b[0] in Elems(b);
    }
    forall w | w in ws && |w| > 0
      ensures Key(w) in index && w in index[Key(w)]
    {
      assert w in Bucket(ws, Key(w));
      assert w in Elems(index[Key(w)]);
    }
  }

  /** The finished index is determined by the idioms alone, whatever order the key loop visits. */
  lemma IndexUnique(index1: map<string, seq<string>>, index2: map<string, seq<string>>, ws: seq<string>)
    requires IsIndexOf(index1, ws) && IsIndexOf(index2, ws)
    ensures index1 == index2
  {
    forall k | k in index1
      ensures index1[k] == index2[k]
    {
      AscendingUnique(index1[k], index2[k]);
    }
  }

  /** Running the dedup-and-sort pass again over a finished index changes no list. */
  lemma DedupAndSortIdempotent(index: map<string, seq<string>>, ws: seq<string>)
    requires IsIndexOf(index, ws)
    ensures forall k :: k in index ==> SortUnique(index[k]) == index[k]
  {
    forall k | k in index
      ensures SortUnique(index[k]) == index[k]
    {
      SortUniqueIdempotent(index[k]);
    }
  }
}
