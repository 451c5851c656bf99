# Board recommendations of the OnSiL backend, in Dafny

This project models the board ("게시판") part of the OnSiL pet-walking
community backend: the `Board` entity and the `BoardService` that creates,
edits, looks up and deletes boards and keeps each board's `recommend`
("like") counter next to a ledger of `Recommendation` entries, one
(userId, board) pair per like.

Files and modules:

- `wrappers.dfy` (`Wrappers`): `Option`, `Result`, `Outcome`. Java's `null`, return values and exceptions become these.
- `java_int.dfy` (`JavaInt`): Java's 32-bit `int` and `Wrap`, the wrap-around of its `+` and `-`.
- `board_entity.dfy` (`BoardEntity`): the `Category` enum and its stored names. Also `BoardRecord`, the value of one board row, and the `Board` class, a mutable entity with one Lombok setter per column. It also holds the request and response DTO shapes.
- `recommendations.dfy` (`Recommendations`): the recommendation table as a sequence. It may hold duplicates, because nothing in the code prevents them. `EntriesOf` is a board's `recommendations` collection. The module also has the count per board, removal of one entry, and the delete cascade.
- `board_spec.dfy` (`BoardSpec`): the two tables as one abstract value, `Store`. Each service operation is a function on it. The lemmas state what each operation does and what it preserves.
- `board_service.dfy` (`BoardService`): the service as a class. It holds a map from postId to `Board` objects, the ledger sequence, and the id generator. Its methods mutate the entities through their setters. Each method is proved to leave exactly the state the matching `BoardSpec` function gives. On an error, it is proved to leave the state unchanged. Its `Valid()` includes the store's integrity: every key is its board's id, every key lies below the id generator, and every ledger entry refers to a stored board.

The central property is `BoardSpec.Consistent`: every board's counter equals
the number of its ledger entries, as a Java `int`. This is exact equality
while the count is at most 2^31-1 (`CounterIsExactCount`). The model
follows the code, which differs from an idealised "one like per user" design:

- `increaseRecommend` never looks for an existing entry. A second like by the same user adds a second entry and a second increment (`DoubleRecommendCountsTwice`).
- `decreaseRecommend` decrements the counter even when the user has no entry. From a consistent store it gives a consistent store if and only if the entry existed (`DecreaseRecommendConsistentIff`). The counter can go below zero (`CounterIsNotNonNegative`).
- `increaseRecommend` keeps consistency unconditionally, and so do `save`, `saveUpdate` and `delete`. Over any sequence of calls, consistency holds as long as no call withdraws a like that does not exist (`RunPreserves`).

## Model

| member | source | states |
|---|---|---|
| JavaInt.Wrap | src/main/java/likelion_backend/OnSiL/domain/board/entity/Board.java:28-29 | the `int` result is congruent to the exact result modulo 2^32 and equals it when it is in range |
| JavaInt.WrapShift | src/main/java/likelion_backend/OnSiL/domain/board/service/BoardService.java:119 | adding to a wrapped `int` gives the exact sum wrapped once |
| JavaInt.WrapNeighboursDiffer | src/main/java/likelion_backend/OnSiL/domain/board/service/BoardService.java:132 | decrementing a Java `int` always changes it |
| BoardEntity.ParseCategory | src/main/java/likelion_backend/OnSiL/domain/board/entity/Board.java:24-26 | a stored category name is read back only if it is SAN, JIL or CHIN, and then as the constant with that name |
| BoardEntity.CategoryRoundTrip | src/main/java/likelion_backend/OnSiL/domain/board/entity/Board.java:40-44 | each of the three constants is read back from its stored name as itself |
| BoardEntity.Board.FromRequest | src/main/java/likelion_backend/OnSiL/domain/board/entity/Board.java:13-35 | a new entity has the request's title, content and category, the given id, counter 0 and no image or writer |
| BoardEntity.Board.SetTitle | src/main/java/likelion_backend/OnSiL/domain/board/entity/Board.java:10-11 | the setter changes the title and no other field |
| BoardEntity.Board.SetContent | src/main/java/likelion_backend/OnSiL/domain/board/entity/Board.java:10-11 | the setter changes the content and no other field |
| BoardEntity.Board.SetCategory | src/main/java/likelion_backend/OnSiL/domain/board/entity/Board.java:10-11 | the setter changes the category and no other field |
| BoardEntity.Board.SetRecommend | src/main/java/likelion_backend/OnSiL/domain/board/entity/Board.java:10-11 | the setter changes the counter and no other field |
| BoardEntity.Board.SetImage | src/main/java/likelion_backend/OnSiL/domain/board/entity/Board.java:10-11 | the setter changes the image and no other field |
| BoardEntity.Board.SetWriter | src/main/java/likelion_backend/OnSiL/domain/board/entity/Board.java:10-11 | the setter changes the writer and no other field |
| Recommendations.EntriesOf | src/main/java/likelion_backend/OnSiL/domain/board/entity/Board.java:37-38 | a board's collection holds exactly the ledger entries that refer to that board |
| Recommendations.EntriesOfMultiset | src/main/java/likelion_backend/OnSiL/domain/board/entity/Board.java:37-38 | the collection keeps every copy of each of its board's entries, duplicates included, and no entry of another board |
| Recommendations.Cascade | src/main/java/likelion_backend/OnSiL/domain/board/entity/Board.java:37-38 | the cascade keeps exactly the entries of other boards |
| Recommendations.CascadeMultiset | src/main/java/likelion_backend/OnSiL/domain/board/entity/Board.java:37-38 | the cascade deletes every copy of the board's entries and keeps every copy of the others' |
| Recommendations.RemoveOne | src/main/java/likelion_backend/OnSiL/domain/board/service/BoardService.java:135-138 | removing an entry the ledger does not hold leaves it unchanged |
| Recommendations.RemoveOneMultiset | src/main/java/likelion_backend/OnSiL/domain/board/service/BoardService.java:135-138 | removal deletes exactly one copy of the entry if there is one, and nothing else |
| Recommendations.RemoveOneAppended | src/main/java/likelion_backend/OnSiL/domain/board/service/BoardService.java:122-137 | deleting an entry just saved, from a ledger that did not hold it, gives back that ledger |
| Recommendations.EntriesOfAppend | src/main/java/likelion_backend/OnSiL/domain/board/service/BoardService.java:122-125 | a saved entry is appended to its own board's collection and to no other |
| Recommendations.EntriesOfRemoveOne | src/main/java/likelion_backend/OnSiL/domain/board/entity/Board.java:37 | deleting an entry from the ledger is removing it from its board's collection (orphan removal), and other collections do not change |
| Recommendations.EntriesOfCascade | src/main/java/likelion_backend/OnSiL/domain/board/entity/Board.java:37-38 | after the cascade the deleted board has no entries and every other board keeps its collection |
| Recommendations.EntriesOfAbsent | src/main/java/likelion_backend/OnSiL/domain/board/entity/Board.java:37-38 | a board that no entry refers to has an empty collection |
| Recommendations.CountForAppend | src/main/java/likelion_backend/OnSiL/domain/board/service/BoardService.java:122-125 | one saved entry raises its board's count by one and no other count |
| Recommendations.CountForRemoveOne | src/main/java/likelion_backend/OnSiL/domain/board/service/BoardService.java:135-138 | deleting a held entry lowers its board's count by one; deleting an absent one changes no count |
| Recommendations.CountForAbsent | src/main/java/likelion_backend/OnSiL/domain/board/entity/Board.java:37-38 | a board that no entry refers to has count 0 |
| BoardSpec.CounterIsExactCount | src/main/java/likelion_backend/OnSiL/domain/board/entity/Board.java:28-29 | in a consistent store with at most 2^31-1 entries for a board, its counter is exactly its entry count |
| BoardSpec.CounterIsNotNonNegative | src/main/java/likelion_backend/OnSiL/domain/board/service/BoardService.java:116-133 | withdrawing at 0 gives -1, and recommending at the `int` maximum wraps to the minimum |
| BoardSpec.SaveCreatesOneBoard | src/main/java/likelion_backend/OnSiL/domain/board/service/BoardService.java:41-55 | no authentication and an unknown member each fail with their own error and store nothing; otherwise exactly one board is added under a fresh id, with counter 0, the caller as writer and the uploaded image, and nothing else changes |
| BoardSpec.SavePreserves | src/main/java/likelion_backend/OnSiL/domain/board/service/BoardService.java:51-55 | save keeps every key equal to its board's id, keeps the ledger free of orphans, and keeps counters consistent |
| BoardSpec.SaveUpdateEdits | src/main/java/likelion_backend/OnSiL/domain/board/service/BoardService.java:64-79 | a missing id fails first, then an unreadable body, with nothing changed; otherwise title, content and category are replaced, the image only for a non-empty file, and counter, writer, ledger and other boards stay |
| BoardSpec.SaveUpdatePreserves | src/main/java/likelion_backend/OnSiL/domain/board/service/BoardService.java:73-79 | an edit keeps the store's integrity and the counters' consistency |
| BoardSpec.IncreaseRecommendCounts | src/main/java/likelion_backend/OnSiL/domain/board/service/BoardService.java:116-125 | one like adds exactly one (userEmail, board) entry: that board's count rises by one and no other count changes |
| BoardSpec.IncreaseRecommendKeepsConsistent | src/main/java/likelion_backend/OnSiL/domain/board/service/BoardService.java:116-125 | a like on an existing board keeps every counter equal to its entry count |
| BoardSpec.IncreaseRecommendPreserves | src/main/java/likelion_backend/OnSiL/domain/board/service/BoardService.java:116-125 | a like, failed or not, keeps integrity and consistency |
| BoardSpec.DecreaseRecommendCounts | src/main/java/likelion_backend/OnSiL/domain/board/service/BoardService.java:129-138 | withdrawing lowers the board's entry count by one if and only if the user had an entry, and leaves other counts alone |
| BoardSpec.DecreaseWithEntryKeepsConsistent | src/main/java/likelion_backend/OnSiL/domain/board/service/BoardService.java:129-138 | withdrawing an existing like keeps every counter consistent |
| BoardSpec.DecreaseWithoutEntryBreaksConsistency | src/main/java/likelion_backend/OnSiL/domain/board/service/BoardService.java:132-138 | withdrawing a like the user never gave leaves the board's counter one below its entry count |
| BoardSpec.DecreaseRecommendConsistentIff | src/main/java/likelion_backend/OnSiL/domain/board/service/BoardService.java:129-138 | the counter always drops by one, and consistency survives if and only if the user had an entry |
| BoardSpec.DecreaseRecommendPreserves | src/main/java/likelion_backend/OnSiL/domain/board/service/BoardService.java:129-138 | a withdrawal keeps integrity, and keeps consistency when the user had an entry or the board is missing |
| BoardSpec.IncreaseThenDecreaseRestores | src/main/java/likelion_backend/OnSiL/domain/board/service/BoardService.java:116-138 | a like followed by its withdrawal restores every board and the ledger's contents as a multiset |
| BoardSpec.IncreaseThenDecreaseIsIdentity | src/main/java/likelion_backend/OnSiL/domain/board/service/BoardService.java:116-138 | for a user without an entry on the board, a like followed by its withdrawal gives back exactly the original store |
| BoardSpec.DoubleRecommendCountsTwice | src/main/java/likelion_backend/OnSiL/domain/board/service/BoardService.java:116-125 | two likes by the same user leave two identical entries and raise both the entry count and the counter by two |
| BoardSpec.DeleteCascades | src/main/java/likelion_backend/OnSiL/domain/board/service/BoardService.java:147-149 | after delete the board is gone with all its entries, other boards and their collections are untouched, and integrity and consistency are kept |
| BoardSpec.LookupsAgree | src/main/java/likelion_backend/OnSiL/domain/board/service/BoardService.java:93-108 | searchById fails exactly where findByBoardId returns null; on a stored board searchById gives the one-element list of what findByBoardId returns |
| BoardSpec.ApplyPreserves | src/main/java/likelion_backend/OnSiL/domain/board/service/BoardService.java:41-149 | every operation keeps integrity, and every operation except withdrawing a like the user does not have keeps consistency |
| BoardSpec.RunPreserves | src/main/java/likelion_backend/OnSiL/domain/board/service/BoardService.java:41-149 | over any sequence of calls integrity holds, and consistency holds when no call withdraws a like the user does not have |
| BoardSpec.RecommendScenario | src/main/java/likelion_backend/OnSiL/domain/board/service/BoardService.java:41-149 | save, two likes, one withdrawal and delete give counters 0, 2, 1 and finally an empty ledger |
| BoardService.BoardService.constructor | src/main/java/likelion_backend/OnSiL/domain/board/service/BoardService.java:30-38 | the service starts with empty tables |
| BoardService.BoardService.Save | src/main/java/likelion_backend/OnSiL/domain/board/service/BoardService.java:41-61 | the state and outcome are those of `BoardSpec.Save`; the new id was not in use and the stored entity is a new object |
| BoardService.BoardService.SaveUpdate | src/main/java/likelion_backend/OnSiL/domain/board/service/BoardService.java:64-80 | the state and outcome are those of `BoardSpec.SaveUpdate` |
| BoardService.BoardService.Search | src/main/java/likelion_backend/OnSiL/domain/board/service/BoardService.java:83-90 | one response per board of the query result, same length and same order |
| BoardService.BoardService.SearchById | src/main/java/likelion_backend/OnSiL/domain/board/service/BoardService.java:93-103 | the result is `BoardSpec.SearchById` of the current tables, and nothing changes |
| BoardService.BoardService.FindByBoardId | src/main/java/likelion_backend/OnSiL/domain/board/service/BoardService.java:106-109 | the result is `BoardSpec.FindByBoardId` of the current tables, and nothing changes |
| BoardService.BoardService.IncreaseRecommend | src/main/java/likelion_backend/OnSiL/domain/board/service/BoardService.java:116-126 | the state and outcome are those of `BoardSpec.IncreaseRecommend` |
| BoardService.BoardService.DecreaseRecommend | src/main/java/likelion_backend/OnSiL/domain/board/service/BoardService.java:129-139 | the state and outcome are those of `BoardSpec.DecreaseRecommend` |
| BoardService.BoardService.HasUserRecommended | src/main/java/likelion_backend/OnSiL/domain/board/service/BoardService.java:141-145 | fails on a missing board, otherwise reports ledger membership, and changes nothing |
| BoardService.BoardService.Delete | src/main/java/likelion_backend/OnSiL/domain/board/service/BoardService.java:147-149 | the state is that of `BoardSpec.Delete` |

## Left out

- Authentication lookup through `SecurityContextHolder` (BoardService.java:42-46): the caller's name is an `Option<string>` parameter, with `None` for no authentication.
- The S3 upload (`S3FileUploadController.getName()`): its result is an opaque string parameter.
- Jackson parsing of the update body: the parsed request is a parameter, and `None` stands for a body that fails to parse.
- `findWithParams`: the repository query's matching rule is not part of this model. `Search` takes the query's result as its argument.
- `boardrecommendList` and `getAllBoards` (BoardService.java:111-113, 151-153): these are paged repository queries whose definitions are not part of this model.
- `@Transactional`, rollback and concurrency: each operation is one atomic sequential step.
- Logging, and the `catch` in `save` that wraps persistence failures (BoardService.java:56-59): the repositories are modelled as never failing.
- `null` values in requests (a null title or category, a null `Integer` id): strings and enum values are always present.
- `postId` is a Java `long`: ids are unbounded integers. `@GeneratedValue` is modelled as a counter in the service that starts at 1.
- BoardSpec.IncreaseThenDecreaseRestores: when the user already had an entry, the lemma relies on the model's first-copy deletion. The single-result query would throw there instead (see the next line). `IncreaseThenDecreaseIsIdentity` states the exact restore for a user without an entry.
- BoardService.BoardService.DecreaseRecommend: when the ledger holds several identical (user, board) entries, the model deletes the first one. A single-result Spring Data query would throw in that case, and that exception is not modelled.
- BoardService.BoardService.Delete: a missing id is ignored, as Spring Data 3's `deleteById` does. `BoardRepository` is not part of this model.
- `setPostId` and `setRecommendations`: the service never calls them. The id is a constant store key, and the collection is a view of the ledger.
- `Board.writer` is declared as a `String`, while `save` passes it a `Member`. The model stores the member's id.
- The `Recommendation`, `Member`, `BoardRequestDTO` and `BoardResponseDTO` classes are not part of this model. A recommendation is a (userId, postId) pair, the request carries title, content and category, and the response copies the board's columns.
- `LocationController` and `CommentController` only delegate to services that are not part of this model.
