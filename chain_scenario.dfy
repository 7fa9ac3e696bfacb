/**
 A three-idiom game played through the modelled pieces in the order the
 agent's workflow calls them: build the index, load it, validate and record
 the player's idiom, then query and record replies until the agent concedes.
 */
module ChainScenario {
  import opened Builtins
  import opened PreprocessData
  import opened Databases
  import opened Schemas
  import opened ChengyuTools
  import IndexPipeline

  /** The three raw records, each a dict whose `word` is an idiom. */
  function ScenarioRecords(): seq<RawRecord>
  {
    [ Object(map["word" := Text("一心一意")]),
      Object(map["word" := Text("意气风发")]),
      Object(map["word" := Text("发号施令")]) ]
  }

  lemma ScenarioAccepted(strip: string -> string)
    requires forall s :: strip(s) == s
    ensures Accepted(ScenarioRecords(), strip) == ["一心一意", "意气风发", "发号施令"]
  {
    var rawIdioms := ScenarioRecords();
    assert Classify(rawIdioms[0], strip) == Keep("一心一意");
    assert Classify(rawIdioms[1], strip) == Keep("意气风发");
    assert Classify(rawIdioms[2], strip) == Keep("发号施令");
    assert rawIdioms[..0] == [];
    AcceptedStep(rawIdioms, strip, 0);
    assert Accepted(rawIdioms[..1], strip) == ["一心一意"];
    AcceptedStep(rawIdioms, strip, 1);
    assert Accepted(rawIdioms[..2], strip) == ["一心一意", "意气风发"];
    AcceptedStep(rawIdioms, strip, 2);
    assert rawIdioms[..3] == rawIdioms;
  }

  /** In a well-keyed base that knows exactly the three idioms, each key holds the one idiom starting with it. */
  lemma ScenarioBuckets(db: ChengyuDatabase, ws: seq<string>)
    requires ws == ["一心一意", "意气风发", "发号施令"]
    requires db.WellKeyed() && forall x :: db.Contains(x) <==> x in ws
    ensures db.Contains("一心一意")
    ensures db.BucketOf("意") == {"意气风发"}
    ensures db.BucketOf("发") == {"发号施令"}
    ensures db.BucketOf("令") == {}
  {
    assert Key("一心一意") == "一" && Key("意气风发") == "意" && Key("发号施令") == "发";
    assert db.Contains("一心一意") && db.Contains("意气风发") && db.Contains("发号施令");
    forall w | w in db.BucketOf("意")
      ensures w == "意气风发"
    {
      ScenarioIdiom(db, ws, w, "意");
    }
    forall w | w in db.BucketOf("发")
      ensures w == "发号施令"
    {
      ScenarioIdiom(db, ws, w, "发");
    }
    forall w | w in db.BucketOf("令")
      ensures false
    {
      ScenarioIdiom(db, ws, w, "令");
    }
  }

  /** An idiom filed under `k` is one of the three, and the one whose first character is `k`. */
  lemma ScenarioIdiom(db: ChengyuDatabase, ws: seq<string>, w: string, k: string)
    requires ws == ["一心一意", "意气风发", "发号施令"]
    requires db.WellKeyed() && forall x :: db.Contains(x) <==> x in ws
    requires w in db.BucketOf(k)
    ensures w in ws && w[0] == k[0]
  {
  }

  /** Builds the index from the three raw records and loads it. */
  method LoadScenarioDatabase() returns (db: ChengyuDatabase)
    ensures db.Contains("一心一意")
    ensures db.BucketOf("意") == {"意气风发"}
    ensures db.BucketOf("发") == {"发号施令"}
    ensures db.BucketOf("令") == {}
  {
    var strip := (s: string) => s;
    ScenarioAccepted(strip);
    var built := CreateIndexedDatabase(ScenarioRecords(), strip);
    if built.Raised? {
      assert false;
    }
    db := new ChengyuDatabase(built.index);
    ghost var ws := ["一心一意", "意气风发", "发号施令"];
    IndexPipeline.LoadedIndexMatchesBuild(built.index, ws, db);
    ScenarioBuckets(db, ws);
  }

  /**
   The player opens with 一心一意, which is legal; the agent replies 意气风发,
   then 发号施令, and concedes on 令, under which nothing is filed.
   */
  method ThreeIdiomGame() returns (opening: Verdict, reply1: Reply, reply2: Reply, reply3: Reply)
    ensures opening == Legal
    ensures reply1 == Continue("意气风发")
    ensures reply2 == Continue("发号施令")
    ensures reply3 == ConcedeSignal
  {
    var db := LoadScenarioDatabase();
    var state := new GameState({}, "");
    opening := ValidateChengyu("一心一意", state, db);
    var _ := RecordUsed("一心一意", state);

    reply1 := QueryAvailableChengyu("意", state, db);
    var _ := RecordUsed("意气风发", state);

    reply2 := QueryAvailableChengyu("发", state, db);
    var _ := RecordUsed("发号施令", state);

    reply3 := QueryAvailableChengyu("令", state, db);
  }
}
