# 成语接龙 (idiom chain) — a Dafny model of the rule engine

The game: a player and an agent take turns naming four-character Chinese
idioms (成语). Each idiom must start with the last character of the one
before it. An idiom may not start and end with the same character, and no
idiom may be used twice. When the agent finds no unused idiom to continue
with, it concedes.

This project models the deterministic core that decides the game:

- **Index build** (`script/preprocess_data.py`, module `PreprocessData`).
  The raw idiom records become a map from first character to the
  deduplicated, sorted list of four-character idioms starting with it. Two
  loops are modelled as methods: grouping by first character, then
  `sorted(list(set(...)))` per key. Each is proved against a specification
  function, `Accepted` and `Bucket`, and `Sorting.SortUnique`. A record whose
  `word` is not a string makes `.strip()` raise; the model reports that
  position as `Raised(at)`.
- **Knowledge base** (`src/tools/databases.py`, module `Databases`). Class
  `ChengyuDatabase` holds the loaded index as a map from first character to a
  set of idioms. It answers `query_by_first_char` (the idioms under a
  character, minus an exclude set) and `contains` (is this a known
  four-character idiom).
- **Game state** (`src/schemas.py`, module `Schemas`). Class `GameState`
  holds the used set and the last idiom, both updated in place.
- **Rule engine tools** (`src/tools/chengyu_tools.py`, module
  `ChengyuTools`):
  - `validate_chengyu` applies five rules in order: length, knowledge base,
    chain, equal ends, already used.
  - `query_available_chengyu` picks the agent's reply or signals a concession.
  - `record_used` records a move.
- **Earlier variant** (`tests/Chengyu_Game.py`, module `ChengyuGame`). The
  same validator without the knowledge-base rule, and the same recorder, over
  a `Context` that also carries a user id.
- **Pipeline and scenario** (modules `IndexPipeline` and `ChainScenario`).
  These lemmas connect the built index to the loaded knowledge base. They also
  play a three-idiom game through all the pieces: 一心一意 → 意气风发 →
  发号施令, and then the agent concedes on 令.

How Python is rendered:

- `w[0]` is `Builtins.Key(w)`, a one-character string, because the index keys
  are strings.
- `set(list)` is `Builtins.Elems`.
- `list(set)` is `Builtins.ListOf`, which yields the elements in an order the
  model leaves open.
- `random.choice` is an arbitrary choice (`:|`).
- `str.strip` is a function parameter.
- Every message string the tools return is a constructor of a datatype
  (`Verdict`, `Reply`).

Validating an idiom right after `record_used` never reports 已使用过
(already used). The chain rule runs first and `last_chengyu` is now that
idiom, so a legal idiom gets a chain mismatch instead
(`ChengyuTools.RevalidateAfterRecord`).

## Model

| member | source | states |
|---|---|---|
| PreprocessData.Accepted | script/preprocess_data.py:21-25 | The idioms the first loop keeps, in record order; every one has exactly four characters |
| PreprocessData.GroupByFirstChar | script/preprocess_data.py:19-27 | Either it stops at the first record whose `word` is not a string, and no earlier record is one; or every key maps exactly to the accepted idioms with that first character, in record order, and only keys with at least one idiom are present |
| PreprocessData.DedupAndSort | script/preprocess_data.py:29-31 | Same keys; each list becomes strictly ascending and keeps exactly the same set of idioms |
| PreprocessData.CreateIndexedDatabase | script/preprocess_data.py:19-31 | The raise case as above; otherwise, under each first character, the index holds the accepted idioms with that first character, deduplicated and sorted |
| PreprocessData.AcceptedHasSource | script/preprocess_data.py:21-27 | Every indexed idiom comes from some record: a dict whose `word` strips to that four-character idiom |
| PreprocessData.SourceIsAccepted | script/preprocess_data.py:21-27 | Conversely, every such record's idiom is indexed |
| PreprocessData.IndexShape | script/preprocess_data.py:19-31 | No key has an empty list; each listed idiom is accepted and filed under its own first character; each accepted idiom is listed under its first character |
| PreprocessData.IndexUnique | script/preprocess_data.py:29-31 | The index is fully determined by the accepted idioms: two indexes of the same idioms are equal |
| PreprocessData.DedupAndSortIdempotent | script/preprocess_data.py:29-31 | Deduplicating and sorting a finished index again changes nothing |
| Sorting.SortUnique | script/preprocess_data.py:31 | `sorted(set(xs))`: strictly ascending, with exactly the elements of `xs` |
| Sorting.AscendingUnique | script/preprocess_data.py:31 | Two strictly ascending lists with the same elements are equal, so the sorted list is unique |
| Sorting.SortUniqueIdempotent | script/preprocess_data.py:31 | Sorting an already strictly ascending list returns it unchanged |
| Databases.ChengyuDatabase.constructor | src/tools/databases.py:11-13 | Same keys as the loaded index; each key's set holds exactly that key's list |
| Databases.ChengyuDatabase.QueryByFirstChar | src/tools/databases.py:15-25 | An unknown character gives `[]`; otherwise the result holds exactly the idioms under the character that are not excluded, each once; with no exclude set, the whole bucket |
| Databases.ChengyuDatabase.Contains | src/tools/databases.py:27-32 | A length other than four is never known; otherwise known exactly when filed under its own first character |
| Databases.ChengyuDatabase.ContainsIffHeld | src/tools/databases.py:27-32 | In a well-keyed index, an idiom is known exactly when it is held under some key |
| Schemas.GameState.constructor | src/schemas.py:5-8 | The state holds the given used set and last idiom |
| ChengyuTools.ValidateChengyu | src/tools/chengyu_tools.py:9-41 | "合法" exactly when all five rules hold. Otherwise it reports the first failing rule, in the order length, knowledge base, chain, ends, used, and every earlier rule holds. A chain mismatch quotes the expected and the received character; the other rejections quote the idiom |
| ChengyuTools.QueryAvailableChengyu | src/tools/chengyu_tools.py:43-60 | Concedes exactly when every idiom under the character is used. Otherwise the reply is an unused idiom under it, which in a well-keyed index is known and starts with that character |
| ChengyuTools.RecordUsed | src/tools/chengyu_tools.py:63-73 | The idiom joins the used set, becomes the last idiom, and "DONE" is returned; nothing is checked |
| ChengyuTools.LegalIffAvailable | src/tools/chengyu_tools.py:20-60 | After a move, an idiom passes validation exactly when it is an unused idiom under the last character whose two ends differ |
| ChengyuTools.ConcedeOnlyWhenStuck | src/tools/chengyu_tools.py:52-56 | When the agent concedes, no idiom at all would pass validation |
| ChengyuTools.RevalidateAfterRecord | src/tools/chengyu_tools.py:28-38 | Right after recording `c`, validating `c` is never "合法" and never "已使用过"; for a known four-character `c` whose ends differ, it is a chain mismatch |
| ChengyuTools.SameEndsReplyExample | src/tools/chengyu_tools.py:52-60 | In a reachable game, after the legal opening 无法无天, the as-written selector replies 天外有天, which the validator rejects for equal ends; the corrected selector concedes |
| ChengyuTools.QueryPlayableChengyu | src/tools/chengyu_tools.py:43-60 | Corrected selector: every reply passes validation, and it concedes exactly when no idiom would pass |
| ChengyuGame.Context.constructor | tests/Chengyu_Game.py:46-51 | The context holds the given user id, used set and last idiom |
| ChengyuGame.ValidateChengyu | tests/Chengyu_Game.py:72-94 | "合法" exactly when the four rules hold (length, chain, ends, not used); otherwise the first failing rule, each message with what it quotes |
| ChengyuGame.RecordUsed | tests/Chengyu_Game.py:96-104 | The idiom joins the used set and becomes the last idiom |
| ChengyuGame.VariantDropsOnlyKnowledgeBase | tests/Chengyu_Game.py:82-94 | On the same state, the knowledge-base validator accepts exactly what this one accepts among the known idioms; on a known idiom both report the same rule |
| IndexPipeline.LoadedIndexMatchesBuild | src/tools/databases.py:11-32 | A knowledge base loaded from a built index is well keyed. Each character's bucket holds the accepted idioms starting with it, and exactly the accepted idioms are known |
| IndexPipeline.KnownIffSupplied | script/preprocess_data.py:21-27 | End to end: the knowledge base knows an idiom exactly when some raw record supplies it |
| ChainScenario.ThreeIdiomGame | src/tools/chengyu_tools.py:9-73 | From three raw records: 一心一意 is legal; the agent replies 意气风发, then 发号施令, then concedes |

## Left out

- JSON file reading and writing, the script's summary `print`s and the module-wide `chengyu_db` instance are not modelled. The index is passed as a value, and the database as an argument.
- A raw file whose top level is not a list is not modelled; the records are always a sequence.
- `str.strip` is a parameter of the build, so the model does not fix which whitespace it removes.
- Python's `sorted` on `str` compares code points; `Sorting.Less` is that lexicographic order on `char`. No locale or normalisation applies.
- `list(set)` order is left arbitrary, and `random.choice` is an arbitrary choice, with no probability distribution.
- The exact wording of each returned message is a datatype constructor carrying the quoted values, not the formatted text.
- `agent_defeat`, `user_defeat` and `generate_chengyu` are left out: each calls a language model or only builds a prompt string.
- `src/Agent.py` and `src/play_chengyu_game.py` (the agent's prompt, tool wiring and console loop) are not part of this model, and neither is `ResponseFormat`.
- `ChengyuGame.RecordUsed`: the variant returns `None` rather than "DONE", so the model gives it no result.
- `ChengyuGame.Context`: the runtime wrapper `ToolRuntime` is dropped, and each tool takes the state object directly.

## Findings

| source | as written | input that shows it | evidently intended | confidence | as-written member | corrected member |
|---|---|---|---|---|---|---|
| src/tools/chengyu_tools.py:52-60 | The reply is chosen from every unused idiom under the last character, including idioms whose first and last characters are equal | Index `{"无": ["无法无天"], "天": ["天外有天"]}`, fresh game: the player's 无法无天 is legal and recorded, then querying 天 replies 天外有天, which `validate_chengyu` rejects as 首尾字相同 | The agent replies only with idioms that pass validation, and concedes when none would | medium, not executed | ChengyuTools.SameEndsReplyExample | ChengyuTools.QueryPlayableChengyu |
