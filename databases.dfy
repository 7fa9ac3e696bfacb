/**
 The idiom knowledge base of src/tools/databases.py: the preprocessed index,
 held as a map from first character to a set of idioms, answering "which
 idioms start with this character, apart from these" and "is this idiom known".
 Loading the JSON file is not modelled: the loaded index is the constructor's
 argument.
 */
module Databases {
  import opened Builtins

  class ChengyuDatabase {
    /** `indexed_sets`: each key's idioms as a set; set once by the constructor. */
    const indexedSets: map<string, set<string>>

    /** The sets hold exactly the lists of the loaded index, key for key. */
    ghost predicate LoadedFrom(indexedData: map<string, seq<string>>)
    {
      && indexedSets.Keys == indexedData.Keys
      && forall k :: k in indexedSets ==> indexedSets[k] == Elems(indexedData[k])
    }

    /**
     Every idiom is filed under its own first character and has four
     characters, as in every index the preprocessing script writes.
     */
    ghost predicate WellKeyed()
    {
      forall k, w :: k in indexedSets && w in indexedSets[k] ==> |w| == 4 && Key(w) == k
    }

    /** Every idiom held under any key. */
    ghost function AllIdioms(): set<string>
    {
      set k, w | k in indexedSets && w in indexedSets[k] :: w
    }

    /** Lines 11-13: the dict comprehension turning each list into a set. */
    constructor (indexedData: map<string, seq<string>>)
      ensures LoadedFrom(indexedData)
    {
      indexedSets := map k | k in indexedData :: Elems(indexedData[k]);
    }

    /** `indexed_sets.get(first_char, set())`. */
    function BucketOf(firstChar: string): (bucket: set<string>)
      ensures firstChar !in indexedSets ==> bucket == {}
      ensures firstChar in indexedSets ==> bucket == indexedSets[firstChar]
    {
      if firstChar in indexedSets then indexedSets[firstChar] else {}
    }

    /**
     Lines 15-25: the idioms under `firstChar` that are not excluded, each once;
     a missing exclude set excludes nothing. The index and the exclude set are
     values here, so neither can change.
     */
    method QueryByFirstChar(firstChar: string, excludeSet: Option<set<string>>) returns (available: seq<string>)
      ensures firstChar !in indexedSets ==> available == []
      ensures forall w :: w in available <==> w in BucketOf(firstChar) && w !in ExcludedBy(excludeSet)
      ensures excludeSet.None? ==> forall w :: w in available <==> w in BucketOf(firstChar)
      ensures NoDuplicates(available)
    {
      var exclude := ExcludedBy(excludeSet);
      if firstChar !in indexedSets {
        return [];
      }
      var allSet := indexedSets[firstChar];
      var availableSet := allSet - exclude;
      available := ListOf(availableSet);
    }

    /** Lines 27-32: whether `idiom` is a known four-character idiom. */
    function Contains(idiom: string): (found: bool)
      ensures |idiom| != 4 ==> !found
      ensures found <==> |idiom| == 4 && idiom in BucketOf(Key(idiom))
    {
      if |idiom| != 4 then false
      else
        var firstChar := Key(idiom);
        idiom in BucketOf(firstChar)
    }

    /** In a well-keyed index, an idiom is known exactly when it is held under some key. */
    lemma ContainsIffHeld(idiom: string)
      requires WellKeyed()
      ensures Contains(idiom) <==> idiom in AllIdioms()
    {
      if idiom in AllIdioms() {
        var k :| k in indexedSets && idiom in indexedSets[k];
        assert Key(idiom) == k;
      }
    }
  }

  /** `exclude_set or set()`: a missing exclude set is the empty set. */
  function ExcludedBy(excludeSet: Option<set<string>>): (exclude: set<string>)
    ensures excludeSet.None? ==> exclude == {}
    ensures excludeSet.Some? ==> exclude == excludeSet.value
  {
    match excludeSet
    case None => {}
    case Some(s) => s
  }
}
