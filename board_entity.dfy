/** The `Board` JPA entity (a mutable object whose Lombok setters the service
    calls), its `Category` enum, and the request and response shapes the
    service copies into and out of it. */
module BoardEntity {
  import opened Wrappers
  import opened JavaInt

  /** `Board.Category`: walks (SAN), illness (JIL) and community (CHIN). */
  datatype Category = SAN | JIL | CHIN

  /** The name `@Enumerated(EnumType.STRING)` stores in the `category` column. */
  function CategoryName(c: Category): string
  {
    match c
    case SAN => "SAN"
    case JIL => "JIL"
    case CHIN => "CHIN"
  }

  /** Reading the `category` column back: only the three constant names map
      to a constant. */
  function ParseCategory(name: string): (r: Option<Category>)
    ensures r.Some? ==> CategoryName(r.value) == name
    ensures name in {"SAN", "JIL", "CHIN"} <==> r.Some?
  {
    if name == "SAN" then Some(SAN)
    else if name == "JIL" then Some(JIL)
    else if name == "CHIN" then Some(CHIN)
    else None
  }

  /** Every constant survives the trip through its column name. */
  lemma CategoryRoundTrip(c: Category)
    ensures ParseCategory(CategoryName(c)) == Some(c)
  {
  }

  /** The fields of one stored board, as a value. The `recommendations`
      collection is not here: it is the ledger's view of this board
      (`Recommendations.EntriesOf`). */
  datatype BoardRecord = BoardRecord(
    postId: int,
    title: string,
    content: string,
    category: Category,
    recommend: int32,
    image: Option<string>,
    writer: Option<string>)

  /** The parsed `BoardRequestDTO`: what `toEntity` and `saveUpdate` copy
      into a board. */
  datatype BoardRequest = BoardRequest(title: string, content: string, category: Category)

  /** `BoardResponseDTO`: the board as the service hands it out. */
  datatype BoardResponse = BoardResponse(
    postId: int,
    title: string,
    content: string,
    category: Category,
    recommend: int32,
    image: Option<string>,
    writer: Option<string>)

  /** `BoardResponseDTO.fromEntity`: copies every scalar field of the board. */
  function FromEntity(b: BoardRecord): BoardResponse
  {
    BoardResponse(b.postId, b.title, b.content, b.category, b.recommend, b.image, b.writer)
  }

  /** The `Board` entity. `postId` is the store key and is never reassigned,
      so it is a constant here; every other column has a setter. */
  class Board {
    const postId: int
    var title: string
    var content: string
    var category: Category
    var recommend: int32
    var image: Option<string>
    var writer: Option<string>

    /** The current column values. */
    function Snapshot(): BoardRecord
      reads this
    {
      BoardRecord(postId, title, content, category, recommend, image, writer)
    }

    /** `boardDTO.toEntity()` with the id the store generates: the request's
        fields, and Java's defaults (0 and null) for the rest. */
    constructor FromRequest(postId: int, req: BoardRequest)
      ensures Snapshot() == BoardRecord(postId, req.title, req.content, req.category, 0, None, None)
    {
      this.postId := postId;
      title := req.title;
      content := req.content;
      category := req.category;
      recommend := 0;
      image := None;
      writer := None;
    }

    method SetTitle(v: string)
      modifies this
      ensures Snapshot() == old(Snapshot()).(title := v)
    {
      title := v;
    }

    method SetContent(v: string)
      modifies this
      ensures Snapshot() == old(Snapshot()).(content := v)
    {
      content := v;
    }

    method SetCategory(v: Category)
      modifies this
      ensures Snapshot() == old(Snapshot()).(category := v)
    {
      category := v;
    }

    method SetRecommend(v: int32)
      modifies this
      ensures Snapshot() == old(Snapshot()).(recommend := v)
    {
      recommend := v;
    }

    method SetImage(v: Option<string>)
      modifies this
      ensures Snapshot() == old(Snapshot()).(image := v)
    {
      image := v;
    }

    method SetWriter(v: Option<string>)
      modifies this
      ensures Snapshot() == old(Snapshot()).(writer := v)
    {
      writer := v;
    }
  }
}
