/**
 The rule engine and game-state tools of src/tools/chengyu_tools.py: validating
 a player's idiom, choosing the agent's reply, and recording a move. The
 database is an argument instead of the module-wide `chengyu_db` instance, and
 the runtime context is the `GameState` itself. Each message string the tools
 return is a constructor of `Verdict` or `Reply`.
 */
module ChengyuTools {
  import opened Builtins
  import opened Databases
  import opened Schemas

  /** What `validate_chengyu` returns: "合法" or one rejection message with what it quotes. */
  datatype Verdict =
    | Legal
    | NotFourCharacters(idiom: string)
    | NotInKnowledgeBase(idiom: string)
    | ChainMismatch(expected: char, received: char)
    | SameEnds(idiom: string)
    | AlreadyUsed(idiom: string)

  /** What `query_available_chengyu` returns: the concede signal "认输信号", or a chosen idiom. */
  datatype Reply = ConcedeSignal | Continue(chengyu: string)

  /** The chain rule: with a previous idiom, the candidate starts with its last character. */
  predicate ChainHolds(chengyu: string, last: string)
  {
    last == [] || (chengyu != [] && chengyu[0] == last[|last| - 1])
  }

  /** The candidate's first and last characters differ. */
  predicate EndsDiffer(chengyu: string)
  {
    chengyu != [] && chengyu[0] != chengyu[|chengyu| - 1]
  }

  /** Rule `i` of the five, on its own: length, knowledge base, chain, ends, not used. */
  predicate Rule(i: nat, chengyu: string, used: set<string>, last: string, db: ChengyuDatabase)
    requires 1 <= i <= 5
  {
    match i
    case 1 => |chengyu| == 4
    case 2 => db.Contains(chengyu)
    case 3 => ChainHolds(chengyu, last)
    case 4 => EndsDiffer(chengyu)
    case 5 => chengyu !in used
  }

  /** Rules 1 to `n` all hold. */
  predicate PassesFirst(n: nat, chengyu: string, used: set<string>, last: string, db: ChengyuDatabase)
    requires n <= 5
  {
    && (n >= 1 ==> Rule(1, chengyu, used, last, db))
    && (n >= 2 ==> Rule(2, chengyu, used, last, db))
    && (n >= 3 ==> Rule(3, chengyu, used, last, db))
    && (n >= 4 ==> Rule(4, chengyu, used, last, db))
    && (n >= 5 ==> Rule(5, chengyu, used, last, db))
  }

  /** The rule a rejection reports; `Legal` reports none. */
  function RuleOf(v: Verdict): (i: nat)
    ensures v.Legal? <==> i == 0
    ensures i <= 5
  {
    match v
    case Legal => 0
    case NotFourCharacters(_) => 1
    case NotInKnowledgeBase(_) => 2
    case ChainMismatch(_, _) => 3
    case SameEnds(_) => 4
    case AlreadyUsed(_) => 5
  }

  /**
   Lines 9-41. The verdict is "合法" exactly when all five rules hold;
   otherwise it reports the first rule, in the order length, knowledge base,
   chain, ends, used, that fails, and every rule before it holds.
   */
  function ValidateChengyu(chengyu: string, state: GameState, db: ChengyuDatabase): (v: Verdict)
    reads state
    ensures v == Legal <==> PassesFirst(5, chengyu, state.usedChengyu, state.lastChengyu, db)
    ensures v != Legal ==> PassesFirst(RuleOf(v) - 1, chengyu, state.usedChengyu, state.lastChengyu, db)
    ensures v != Legal ==> !Rule(RuleOf(v), chengyu, state.usedChengyu, state.lastChengyu, db)
    ensures v.ChainMismatch? ==>
      && |chengyu| == 4 && state.lastChengyu != []
      && v == ChainMismatch(state.lastChengyu[|state.lastChengyu| - 1], chengyu[0])
    ensures !v.Legal? && !v.ChainMismatch? ==> v.idiom == chengyu
  {
    var usedChengyu := state.usedChengyu;
    var lastChengyu := state.lastChengyu;
    if |chengyu| != 4 then
      NotFourCharacters(chengyu)
    else if !db.Contains(chengyu) then
      NotInKnowledgeBase(chengyu)
    else if lastChengyu != [] && chengyu[0] != lastChengyu[|lastChengyu| - 1] then
      ChainMismatch(lastChengyu[|lastChengyu| - 1], chengyu[0])
    else if chengyu[0] == chengyu[3] then
      SameEnds(chengyu)
    else if chengyu in usedChengyu then
      AlreadyUsed(chengyu)
    else
      Legal
  }

  /**
   Lines 44-60. The agent concedes exactly when every idiom under `lastChar`
   has been used; otherwise its reply is an unused idiom under `lastChar`,
   which in a well-keyed index is a known idiom starting with `lastChar`.
   `random.choice` is an arbitrary choice among the available idioms.
   */
  method QueryAvailableChengyu(lastChar: string, state: GameState, db: ChengyuDatabase) returns (reply: Reply)
    ensures reply == ConcedeSignal <==> db.BucketOf(lastChar) <= state.usedChengyu
    ensures reply.Continue? ==> reply.chengyu in db.BucketOf(lastChar) && reply.chengyu !in state.usedChengyu
    ensures reply.Continue? && db.WellKeyed() ==> db.Contains(reply.chengyu) && Key(reply.chengyu) == lastChar
  {
    var usedChengyu := state.usedChengyu;
    var available := db.QueryByFirstChar(lastChar, Some(usedChengyu));
    if |available| == 0 {
      return ConcedeSignal;
    }
    assert available[0] in available;
    var i :| 0 <= i < |available|;
    reply := Continue(available[i]);
  }

  /** Lines 63-73: the idiom joins the used set and becomes the last idiom; nothing is checked. */
  method RecordUsed(chengyu: string, state: GameState) returns (status: string)
    modifies state
    ensures state.usedChengyu == old(state.usedChengyu) + {chengyu}
    ensures state.lastChengyu == chengyu
    ensures status == "DONE"
  {
    state.usedChengyu := state.usedChengyu + {chengyu};
    state.lastChengyu := chengyu;
    return "DONE";
  }

  /** The agent's reply continues the chain from `last`: `lastChar` is its last character. */
  predicate RepliesTo(lastChar: string, last: string)
  {
    last != [] && lastChar == [last[|last| - 1]]
  }

  /**
   Once the last idiom is non-empty and the index well-keyed, an idiom passes
   validation exactly when it is an unused idiom filed under the last idiom's
   final character whose own ends differ: the candidates the reply is drawn
   from, less those with equal ends.
   */
  lemma LegalIffAvailable(lastChar: string, state: GameState, db: ChengyuDatabase, w: string)
    requires db.WellKeyed() && RepliesTo(lastChar, state.lastChengyu)
    ensures ValidateChengyu(w, state, db) == Legal <==>
      w in db.BucketOf(lastChar) && w !in state.usedChengyu && EndsDiffer(w)
  {
    if w in db.BucketOf(lastChar) {
      assert |w| == 4 && Key(w) == lastChar;
    }
    if ValidateChengyu(w, state, db) == Legal {
      assert Key(w) == lastChar;
    }
  }

  /** The agent concedes only when no idiom at all would pass validation. */
  lemma ConcedeOnlyWhenStuck(lastChar: string, state: GameState, db: ChengyuDatabase, w: string)
    requires db.WellKeyed() && RepliesTo(lastChar, state.lastChengyu)
    requires db.BucketOf(lastChar) <= state.usedChengyu
    ensures ValidateChengyu(w, state, db) != Legal
  {
    LegalIffAvailable(lastChar, state, db, w);
  }

  /**
   The selector with the equal-ends rule applied: the reply is drawn only from
   available idioms whose first and last characters differ. After a player's
   idiom, in a well-keyed index, every reply then passes validation, and the
   agent concedes exactly when no idiom would.
   */
  method QueryPlayableChengyu(lastChar: string, state: GameState, db: ChengyuDatabase) returns (reply: Reply)
    ensures reply == ConcedeSignal <==>
      forall w :: w in db.BucketOf(lastChar) && w !in state.usedChengyu ==> !EndsDiffer(w)
    ensures reply.Continue? ==>
      reply.chengyu in db.BucketOf(lastChar) && reply.chengyu !in state.usedChengyu && EndsDiffer(reply.chengyu)
    ensures db.WellKeyed() && RepliesTo(lastChar, state.lastChengyu) && reply.Continue? ==>
      ValidateChengyu(reply.chengyu, state, db) == Legal
    ensures db.WellKeyed() && RepliesTo(lastChar, state.lastChengyu) ==>
      (reply == ConcedeSignal <==> forall w :: ValidateChengyu(w, state, db) != Legal)
  {
    var usedChengyu := state.usedChengyu;
    var available := db.QueryByFirstChar(lastChar, Some(usedChengyu));
    var playable := set w | w in available && EndsDiffer(w);
    if db.WellKeyed() && RepliesTo(lastChar, state.lastChengyu) {
      forall w
        ensures ValidateChengyu(w, state, db) == Legal <==> w in playable
      {
        LegalIffAvailable(lastChar, state, db, w);
      }
    }
    if playable == {} {
      forall w | w in db.BucketOf(lastChar) && w !in usedChengyu
        ensures !EndsDiffer(w)
      {
        assert w in available;
        assert w !in playable;
      }
      return ConcedeSignal;
    }
    var chosen :| chosen in playable;
    reply := Continue(chosen);
  }

  /**
   A game where `query_available_chengyu` answers with an idiom that
   `validate_chengyu` rejects for its equal ends. The index knows 无法无天 and
   天外有天; the player opens with 无法无天, which is legal and is recorded, and
   the only unused idiom under 天 is then 天外有天. The selector with the
   equal-ends rule concedes instead.
   */
  method SameEndsReplyExample() returns (opening: Verdict, reply: Reply, verdict: Verdict, playable: Reply)
    ensures opening == Legal
    ensures reply == Continue("天外有天")
    ensures verdict == SameEnds("天外有天")
    ensures playable == ConcedeSignal
  {
    var db := new ChengyuDatabase(map["无" := ["无法无天"], "天" := ["天外有天"]]);
    assert db.BucketOf("无") == {"无法无天"};
    assert db.BucketOf("天") == {"天外有天"};
    assert Key("无法无天") == "无";
    var state := new GameState({}, "");
    opening := ValidateChengyu("无法无天", state, db);
    var _ := RecordUsed("无法无天", state);
    reply := QueryAvailableChengyu("天", state, db);
    verdict := ValidateChengyu(reply.chengyu, state, db);
    playable := QueryPlayableChengyu("天", state, db);
  }

  /**
   Right after `record_used(c)`, validating `c` again is never "合法", and it is
   never reported as already used either: `c` is now the last idiom, so an
   earlier rule (for a legal `c`, the chain rule) fails first.
   */
  lemma RevalidateAfterRecord(chengyu: string, state: GameState, db: ChengyuDatabase)
    requires chengyu in state.usedChengyu && state.lastChengyu == chengyu
    ensures ValidateChengyu(chengyu, state, db) != Legal
    ensures !ValidateChengyu(chengyu, state, db).AlreadyUsed?
    ensures |chengyu| == 4 && db.Contains(chengyu) && EndsDiffer(chengyu) ==>
      ValidateChengyu(chengyu, state, db) == ChainMismatch(chengyu[3], chengyu[0])
  {
  }
}
