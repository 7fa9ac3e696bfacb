/**
 The earlier rule engine of tests/Chengyu_Game.py: the same validator without
 the knowledge-base check, and the same move recorder, over a `Context` that
 also carries a user id.
 */
module ChengyuGame {
  import opened Databases
  import opened Schemas
  import Tools = ChengyuTools

  /** The game context: who is playing, the idioms used so far, the last idiom. */
  class Context {
    const userId: string
    var usedChengyu: set<string>
    var lastChengyu: string

    constructor (userId: string, usedChengyu: set<string>, lastChengyu: string)
      ensures this.userId == userId
      ensures this.usedChengyu == usedChengyu && this.lastChengyu == lastChengyu
    {
      this.userId := userId;
      this.usedChengyu := usedChengyu;
      this.lastChengyu := lastChengyu;
    }
  }

  /** The messages of this validator: its chain message quotes only the expected character. */
  datatype Verdict =
    | Legal
    | NotFourCharacters(idiom: string)
    | WrongStart(expected: char)
    | SameEnds(idiom: string)
    | AlreadyUsed(idiom: string)

  /**
   Lines 72-94. "合法" exactly when the four rules hold (length, chain, ends,
   not used); otherwise the first failing rule in that order.
   */
  function ValidateChengyu(chengyu: string, context: Context): (v: Verdict)
    reads context
    ensures v == Legal <==>
      |chengyu| == 4 && Tools.ChainHolds(chengyu, context.lastChengyu)
      && Tools.EndsDiffer(chengyu) && chengyu !in context.usedChengyu
    ensures |chengyu| != 4 ==> v == NotFourCharacters(chengyu)
    ensures v.WrongStart? <==> |chengyu| == 4 && !Tools.ChainHolds(chengyu, context.lastChengyu)
    ensures v.WrongStart? ==>
      context.lastChengyu != [] && v.expected == context.lastChengyu[|context.lastChengyu| - 1]
    ensures v.SameEnds? <==>
      |chengyu| == 4 && Tools.ChainHolds(chengyu, context.lastChengyu) && !Tools.EndsDiffer(chengyu)
    ensures v.AlreadyUsed? <==>
      |chengyu| == 4 && Tools.ChainHolds(chengyu, context.lastChengyu)
      && Tools.EndsDiffer(chengyu) && chengyu in context.usedChengyu
    ensures v.NotFourCharacters? || v.SameEnds? || v.AlreadyUsed? ==> v.idiom == chengyu
  {
    var usedChengyu := context.usedChengyu;
    var lastChengyu := context.lastChengyu;
    if |chengyu| != 4 then
      NotFourCharacters(chengyu)
    else if lastChengyu != [] && chengyu[0] != lastChengyu[|lastChengyu| - 1] then
      WrongStart(lastChengyu[|lastChengyu| - 1])
    else if chengyu[0] == chengyu[|chengyu| - 1] then
      SameEnds(chengyu)
    else if chengyu in usedChengyu then
      AlreadyUsed(chengyu)
    else
      Legal
  }

  /** Lines 96-104: the idiom joins the used set and becomes the last idiom; the user id is a constant and stays. */
  method RecordUsed(chengyu: string, context: Context)
    modifies context
    ensures context.usedChengyu == old(context.usedChengyu) + {chengyu}
    ensures context.lastChengyu == chengyu
  {
    context.usedChengyu := context.usedChengyu + {chengyu};
    context.lastChengyu := chengyu;
  }

  /** The two validators report the same rule, or both accept. */
  predicate SameRule(v: Tools.Verdict, w: Verdict)
  {
    match v
    case Legal => w.Legal?
    case NotFourCharacters(_) => w.NotFourCharacters?
    case NotInKnowledgeBase(_) => false
    case ChainMismatch(expected, _) => w == WrongStart(expected)
    case SameEnds(_) => w.SameEnds?
    case AlreadyUsed(_) => w.AlreadyUsed?
  }

  /**
   On the same used set and last idiom, this validator accepts exactly the
   same known idioms as the knowledge-base validator; on a known idiom both
   report the same rule.
   */
  lemma VariantDropsOnlyKnowledgeBase(chengyu: string, state: GameState, context: Context, db: ChengyuDatabase)
    requires state.usedChengyu == context.usedChengyu && state.lastChengyu == context.lastChengyu
    ensures Tools.ValidateChengyu(chengyu, state, db) == Tools.Legal <==>
      ValidateChengyu(chengyu, context) == Legal && db.Contains(chengyu)
    ensures Tools.ValidateChengyu(chengyu, state, db) == Tools.Legal ==> ValidateChengyu(chengyu, context) == Legal
    ensures db.Contains(chengyu) ==> SameRule(Tools.ValidateChengyu(chengyu, state, db), ValidateChengyu(chengyu, context))
    ensures Tools.ValidateChengyu(chengyu, state, db).NotInKnowledgeBase? ==> !ValidateChengyu(chengyu, context).NotFourCharacters?
  {
  }
}
