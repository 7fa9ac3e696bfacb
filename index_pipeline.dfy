/**
 The index file the preprocessing script writes is the file the knowledge base
 loads. These lemmas follow an index from the raw records through
 `create_indexed_database` into `ChengyuDatabase`.
 */
module IndexPipeline {
  import opened Builtins
  import opened PreprocessData
  import opened Databases

  /**
   A knowledge base loaded from a finished index is well keyed, answers each
   first character with exactly the indexed idioms starting with it, and knows
   exactly the indexed idioms.
   */
  lemma LoadedIndexMatchesBuild(index: map<string, seq<string>>, ws: seq<string>, db: ChengyuDatabase)
    requires forall w :: w in ws ==> |w| == 4
    requires IsIndexOf(index, ws) && db.LoadedFrom(index)
    ensures db.WellKeyed()
    ensures forall k :: db.BucketOf(k) == Elems(Bucket(ws, k))
    ensures forall w :: db.Contains(w) <==> w in ws
  {
    IndexShape(index, ws);
    forall k
      ensures db.BucketOf(k) == Elems(Bucket(ws, k))
    {
      if k !in index {
        assert Bucket(ws, k) == [];
      }
    }
    forall w
      ensures db.Contains(w) <==> w in ws
    {
      if w in ws {
        assert w in Bucket(ws, Key(w));
      }
    }
  }

  /**
   End to end: after building from the raw records and loading the result, the
   knowledge base knows an idiom exactly when some record is a dict whose
   `word` is a string that strips to that four-character idiom.
   */
  lemma KnownIffSupplied(rawIdioms: seq<RawRecord>, strip: string -> string,
                         index: map<string, seq<string>>, db: ChengyuDatabase, w: string)
    requires IsIndexOf(index, Accepted(rawIdioms, strip)) && db.LoadedFrom(index)
    ensures db.Contains(w) <==> exists j :: 0 <= j < |rawIdioms| && ComesFrom(rawIdioms[j], strip, w)
  {
    LoadedIndexMatchesBuild(index, Accepted(rawIdioms, strip), db);
    if db.Contains(w) {
      var j := AcceptedHasSource(rawIdioms, strip, w);
    }
    if exists j :: 0 <= j < |rawIdioms| && ComesFrom(rawIdioms[j], strip, w) {
      var j :| 0 <= j < |rawIdioms| && ComesFrom(rawIdioms[j], strip, w);
      SourceIsAccepted(rawIdioms, strip, w, j);
    }
  }
}
