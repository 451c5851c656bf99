/** `BoardService`: the board table as a map of mutable `Board` entities, the
    recommendation table as a sequence, and the service's operations as
    methods that update them in place. Each method is proved to leave the
    state the matching `BoardSpec` function describes (and, when that
    function throws, to leave the state untouched). */
module BoardService {
  import opened Wrappers
  import opened JavaInt
  import opened BoardEntity
  import opened Recommendations
  import BoardSpec

  class BoardService {
    /** `boardRepository`: the managed entity of each stored board. */
    var boards: map<int, Board>
    /** `userRecommendationBoardRepository`. */
    var ledger: seq<Recommendation>
    /** The id `@GeneratedValue` hands to the next board. */
    var nextId: int
    /** The member ids `memberRepository.findByMemberId` knows. */
    const members: set<string>

    /** Each board is stored under its own postId, so distinct keys hold
        distinct entities; the id generator is past every key and every
        ledger entry refers to a stored board. */
    ghost predicate Valid()
      reads this, boards.Values
    {
      && (forall id :: id in boards ==> boards[id].postId == id)
      && BoardSpec.Inv(Abs())
    }

    /** The tables' contents as values. */
    ghost function Abs(): BoardSpec.Store
      reads this, boards.Values
    {
      BoardSpec.Store(map id | id in boards :: boards[id].Snapshot(), ledger, nextId)
    }

    constructor (members: set<string>)
      ensures Valid() && this.members == members
      ensures Abs() == BoardSpec.Store(map[], [], 1)
    {
      boards := map[];
      ledger := [];
      nextId := 1;
      this.members := members;
    }

    /** When only the entity under `postId` has changed, the abstract store
        differs only in that board and in the ledger. */
    twostate lemma OneBoardEdited(postId: int)
      requires old(Valid()) && postId in boards && boards == old(boards) && nextId == old(nextId)
      requires forall id :: id in boards && id != postId ==> unchanged(boards[id])
      ensures Abs() == old(Abs()).(boards := old(Abs()).boards[postId := boards[postId].Snapshot()], ledger := ledger)
    {
      var now, before := Abs().boards, old(Abs()).boards[postId := boards[postId].Snapshot()];
      assert now.Keys == before.Keys;
      forall id | id in now
        ensures now[id] == before[id]
      {
        if id != postId {
          assert unchanged(boards[id]);
          assert now[id] == boards[id].Snapshot() == old(boards[id].Snapshot());
        }
      }
    }

    /** `save`: `caller` is the authenticated name (None when there is no
        authentication) and `imageName` what the upload returned. */
    method Save(caller: Option<string>, req: BoardRequest, imageName: string) returns (outcome: Outcome<BoardSpec.Error>)
      requires Valid()
      modifies this`boards, this`nextId
      ensures Valid()
      ensures var r := BoardSpec.Save(old(Abs()), members, caller, req, imageName);
        outcome == BoardSpec.StatusOf(r) && Abs() == BoardSpec.After(old(Abs()), r)
      ensures outcome.Pass? ==> old(nextId) !in old(boards) && old(nextId) in boards && fresh(boards[old(nextId)])
    {
      ghost var s0 := Abs();
      BoardSpec.SavePreserves(s0, members, caller, req, imageName);
      assert nextId !in s0.boards;
      if caller.None? {
        return Fail(BoardSpec.Unauthenticated);
      }
      if caller.value !in members {
        return Fail(BoardSpec.MemberNotFound);
      }
      var board := new Board.FromRequest(nextId, req);
      board.SetImage(Some(imageName));
      board.SetRecommend(0);
      board.SetWriter(Some(caller.value));
      boards := boards[nextId := board];
      nextId := nextId + 1;
      assert Abs() == BoardSpec.Save(s0, members, caller, req, imageName).value;
      outcome := Pass;
    }

    /** `saveUpdate`: `req` is the parsed JSON body (None when Jackson
        rejects it), `imageFile` the multipart file and `uploadedName` the
        name the upload returns. */
    method SaveUpdate(postId: int, req: Option<BoardRequest>, imageFile: Option<seq<bv8>>, uploadedName: string)
      returns (outcome: Outcome<BoardSpec.Error>)
      requires Valid()
      modifies boards.Values
      ensures Valid()
      ensures var r := BoardSpec.SaveUpdate(old(Abs()), postId, req, imageFile, uploadedName);
        outcome == BoardSpec.StatusOf(r) && Abs() == BoardSpec.After(old(Abs()), r)
    {
      ghost var s0 := Abs();
      BoardSpec.SaveUpdatePreserves(s0, postId, req, imageFile, uploadedName);
      if postId !in boards {
        return Fail(BoardSpec.BoardNotFound);
      }
      var existing := boards[postId];
      var imageUrl: Option<string> := None;
      if imageFile.Some? && |imageFile.value| > 0 {
        imageUrl := Some(uploadedName);
      }
      if req.None? {
        return Fail(BoardSpec.MalformedRequest);
      }
      existing.SetTitle(req.value.title);
      existing.SetContent(req.value.content);
      existing.SetCategory(req.value.category);
      if imageUrl.Some? {
        existing.SetImage(imageUrl);
      }
      OneBoardEdited(postId);
      assert Abs() == BoardSpec.SaveUpdate(s0, postId, req, imageFile, uploadedName).value;
      outcome := Pass;
    }

    /** `search`: one response per board the title query returned, in the
        query's order. `hits` is what `findWithParams(title)` returned. */
    method Search(hits: seq<Board>) returns (dtos: seq<BoardResponse>)
      ensures |dtos| == |hits|
      ensures forall i :: 0 <= i < |hits| ==> dtos[i] == FromEntity(hits[i].Snapshot())
    {
      dtos := [];
      for i := 0 to |hits|
        invariant |dtos| == i
        invariant forall k :: 0 <= k < i ==> dtos[k] == FromEntity(hits[k].Snapshot())
      {
        dtos := dtos + [FromEntity(hits[i].Snapshot())];
      }
    }

    /** `searchById`: the id arrives as a Java `Integer`. */
    method SearchById(postId: int32) returns (r: Result<seq<BoardResponse>, BoardSpec.Error>)
      ensures r == BoardSpec.SearchById(Abs(), postId)
    {
      if postId in boards {
        var board := boards[postId];
        r := Ok([FromEntity(board.Snapshot())]);
      } else {
        r := Err(BoardSpec.BoardNotFound);
      }
    }

    /** `findByBoardId`: None stands for the `null` it returns. */
    method FindByBoardId(postId: int) returns (r: Option<BoardResponse>)
      ensures r == BoardSpec.FindByBoardId(Abs(), postId)
    {
      if postId in boards {
        r := Some(FromEntity(boards[postId].Snapshot()));
      } else {
        r := None;
      }
    }

    /** `increaseRecommend`. */
    method IncreaseRecommend(postId: int, userEmail: string) returns (outcome: Outcome<BoardSpec.Error>)
      requires Valid()
      modifies this`ledger, boards.Values
      ensures Valid()
      ensures var r := BoardSpec.IncreaseRecommend(old(Abs()), postId, userEmail);
        outcome == BoardSpec.StatusOf(r) && Abs() == BoardSpec.After(old(Abs()), r)
    {
      ghost var s0 := Abs();
      BoardSpec.IncreaseRecommendPreserves(s0, postId, userEmail);
      if postId !in boards {
        return Fail(BoardSpec.BoardNotFound);
      }
      var board := boards[postId];
      board.SetRecommend(Wrap(board.recommend + 1));
      ledger := ledger + [Recommendation(userEmail, postId)];
      OneBoardEdited(postId);
      assert Abs() == BoardSpec.IncreaseRecommend(s0, postId, userEmail).value;
      outcome := Pass;
    }

    /** `decreaseRecommend`: the counter goes down first; the user's entry,
        if `findByUserIdAndBoard` finds one, is deleted after. */
    method DecreaseRecommend(postId: int, userEmail: string) returns (outcome: Outcome<BoardSpec.Error>)
      requires Valid()
      modifies this`ledger, boards.Values
      ensures Valid()
      ensures var r := BoardSpec.DecreaseRecommend(old(Abs()), postId, userEmail);
        outcome == BoardSpec.StatusOf(r) && Abs() == BoardSpec.After(old(Abs()), r)
    {
      ghost var s0 := Abs();
      BoardSpec.DecreaseRecommendPreserves(s0, postId, userEmail);
      if postId !in boards {
        return Fail(BoardSpec.BoardNotFound);
      }
      var board := boards[postId];
      board.SetRecommend(Wrap(board.recommend - 1));
      var entry := Recommendation(userEmail, postId);
      if entry in ledger {
        ledger := RemoveOne(ledger, entry);
      }
      assert ledger == RemoveOne(old(ledger), entry);
      OneBoardEdited(postId);
      assert Abs() == BoardSpec.DecreaseRecommend(s0, postId, userEmail).value;
      outcome := Pass;
    }

    /** `hasUserRecommended`: a query; it changes nothing. */
    method HasUserRecommended(postId: int, userEmail: string) returns (r: Result<bool, BoardSpec.Error>)
      ensures r == BoardSpec.HasUserRecommended(Abs(), postId, userEmail)
    {
      if postId !in boards {
        return Err(BoardSpec.BoardNotFound);
      }
      r := Ok(Recommendation(userEmail, postId) in ledger);
    }

    /** `delete`: `deleteById` removes the entity, and the cascade on
        `Board.recommendations` its entries; a missing id is ignored. */
    method Delete(postId: int)
      requires Valid()
      modifies this`boards, this`ledger
      ensures Valid()
      ensures Abs() == BoardSpec.Delete(old(Abs()), postId)
    {
      ghost var s0 := Abs();
      BoardSpec.DeleteCascades(s0, postId);
      if postId in boards {
        boards := boards - {postId};
        ledger := Cascade(ledger, postId);
      }
      assert Abs() == BoardSpec.Delete(s0, postId);
    }
  }
}
