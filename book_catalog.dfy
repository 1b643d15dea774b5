/**
 * The book agent's tool side: the in-memory catalog `booksDatabase`, the
 * three-stage lookup of `bookLookupTool` with the texts it produces, and the
 * name-based dispatch of `executeTool`.
 */
module BookCatalog {
  import opened TextUtil
  import opened ToolCallParser

  datatype BookInfo = BookInfo(author: string, year: int, summary: string, genre: string, pages: int)

  /** A catalog: its own keys in enumeration order, and the entry stored under each. */
  datatype Catalog = Catalog(keys: seq<string>, books: map<string, BookInfo>) {
    /** Keys are non-empty and listed once each, and the list and the map agree. */
    predicate Valid() {
      && (forall i :: 0 <= i < |keys| ==> keys[i] != "")
      && (forall i, j :: 0 <= i < j < |keys| ==> keys[i] != keys[j])
      && (forall k :: k in books ==> k in keys)
      && (forall i :: 0 <= i < |keys| ==> keys[i] in books)
    }
  }

  /** `booksDatabase`. Its keys are listed in the order JavaScript enumerates
      them: the integer-like key "1984" first, then the others as written. */
  const BooksDatabase := Catalog(
    ["1984", "Dom Casmurro", "O Cortiço", "Pride and Prejudice", "O Pequeno Príncipe"],
    map[
      "Dom Casmurro" := BookInfo(
        "Machado de Assis", 1899,
        "Romance que narra a história de Bentinho e sua obsessão com a suposta traição de Capitu",
        "Romance/Realismo", 256),
      "O Cortiço" := BookInfo(
        "Aluísio Azevedo", 1890,
        "Romance naturalista que retrata a vida em um cortiço no Rio de Janeiro do século XIX",
        "Naturalismo", 304),
      "1984" := BookInfo(
        "George Orwell", 1949,
        "Distopia que retrata uma sociedade totalitária sob constante vigilância do 'Big Brother'",
        "Ficção Científica/Distopia", 328),
      "Pride and Prejudice" := BookInfo(
        "Jane Austen", 1813,
        "Romance e crítica a sociedade inglesa através da história de Elizabeth Bennet e Mr. Darcy.",
        "Romance/Drama", 432),
      "O Pequeno Príncipe" := BookInfo(
        "Antonie de Saint-Exupéry", 1943,
        "Fábula poética sobre um príncipe que viaja entre planetas e aprende sobre a vida e amor.",
        "Fábula/Infantil", 96)
    ])

  lemma BooksDatabaseKeysDistinct()
    ensures forall i, j :: 0 <= i < j < |BooksDatabase.keys| ==> BooksDatabase.keys[i] != BooksDatabase.keys[j]
  {
    var keys := BooksDatabase.keys;
    assert |keys[0]| == 4 && |keys[1]| == 12 && |keys[2]| == 9 && |keys[3]| == 19 && |keys[4]| == 18;
  }

  lemma BooksDatabaseKeysListed()
    ensures forall k :: k in BooksDatabase.books ==> k in BooksDatabase.keys
  {
  }

  lemma BooksDatabaseKeysStored()
    ensures forall i :: 0 <= i < |BooksDatabase.keys| ==> BooksDatabase.keys[i] in BooksDatabase.books
  {
  }

  lemma BooksDatabaseValid()
    ensures BooksDatabase.Valid()
  {
    BooksDatabaseKeysDistinct();
    BooksDatabaseKeysListed();
    BooksDatabaseKeysStored();
  }

  /** `Array.prototype.find` by index: the first element satisfying `p`. */
  function FindFirst(xs: seq<string>, p: string -> bool): (r: Option<nat>)
    ensures r.Some? ==> r.value < |xs| && p(xs[r.value])
    ensures r.Some? ==> forall j :: 0 <= j < r.value ==> !p(xs[j])
    ensures r.None? <==> forall j :: 0 <= j < |xs| ==> !p(xs[j])
    decreases |xs|
  {
    if xs == [] then None
    else if p(xs[0]) then Some(0)
    else match FindFirst(xs[1..], p)
      case None => None
      case Some(i) => Some(i + 1)
  }

  /** The first element satisfying `p` is the one `FindFirst` reports. */
  lemma FindFirstIs(xs: seq<string>, p: string -> bool, i: nat)
    requires i < |xs| && p(xs[i])
    requires forall j :: 0 <= j < i ==> !p(xs[j])
    ensures FindFirst(xs, p) == Some(i)
  {
    assert FindFirst(xs, p).Some?;
  }

  /** Second stage: `key.toLowerCase() === title.toLowerCase()`. */
  predicate SameIgnoringCase(key: string, title: string) {
    ToLower(key) == ToLower(title)
  }

  /** Third stage: either lower-cased string includes the other. */
  predicate Overlaps(key: string, title: string) {
    Contains(ToLower(key), ToLower(title)) || Contains(ToLower(title), ToLower(key))
  }

  lemma SameOverlaps(key: string, title: string)
    requires SameIgnoringCase(key, title)
    ensures Overlaps(key, title)
  {
    ContainsSelf(ToLower(key));
  }

  /** The key whose entry `bookLookupTool` shows for `title`, if any: the
      title itself when it is a key, else the first key equal to it up to
      case, else the first key that includes it or is included in it, up to case. */
  function ResolveKey(c: Catalog, title: string): (r: Option<string>)
    ensures title in c.books ==> r == Some(title)
    ensures r.Some? ==> r.value in c.books || r.value in c.keys
    ensures r.Some? && r.value != title ==> Overlaps(r.value, title)
  {
    if title in c.books then Some(title)
    else match FindFirst(c.keys, k => SameIgnoringCase(k, title))
      case Some(i) => SameOverlaps(c.keys[i], title); Some(c.keys[i])
      case None =>
        match FindFirst(c.keys, k => Overlaps(k, title))
        case Some(i) => Some(c.keys[i])
        case None => None
  }

  /** Without an exact key, the first key equal to the title up to case wins. */
  lemma ResolveCaseInsensitive(c: Catalog, title: string, i: nat)
    requires title !in c.books
    requires i < |c.keys| && SameIgnoringCase(c.keys[i], title)
    requires forall j :: 0 <= j < i ==> !SameIgnoringCase(c.keys[j], title)
    ensures ResolveKey(c, title) == Some(c.keys[i])
  {
    FindFirstIs(c.keys, k => SameIgnoringCase(k, title), i);
  }

  /** Without an exact or a case-insensitive key, the first overlapping key wins. */
  lemma ResolvePartial(c: Catalog, title: string, i: nat)
    requires title !in c.books
    requires forall j :: 0 <= j < |c.keys| ==> !SameIgnoringCase(c.keys[j], title)
    requires i < |c.keys| && Overlaps(c.keys[i], title)
    requires forall j :: 0 <= j < i ==> !Overlaps(c.keys[j], title)
    ensures ResolveKey(c, title) == Some(c.keys[i])
  {
    assert FindFirst(c.keys, k => SameIgnoringCase(k, title)).None?;
    FindFirstIs(c.keys, k => Overlaps(k, title), i);
  }

  /** A lookup finds nothing exactly when the title is not a key and no key
      overlaps it, up to case. */
  lemma ResolveMissIff(c: Catalog, title: string)
    ensures ResolveKey(c, title).None? <==>
      title !in c.books && forall j :: 0 <= j < |c.keys| ==> !Overlaps(c.keys[j], title)
  {
    if title !in c.books && forall j :: 0 <= j < |c.keys| ==> !Overlaps(c.keys[j], title) {
      forall j | 0 <= j < |c.keys|
        ensures !SameIgnoringCase(c.keys[j], title)
      {
        if SameIgnoringCase(c.keys[j], title) {
          SameOverlaps(c.keys[j], title);
        }
      }
      assert FindFirst(c.keys, k => SameIgnoringCase(k, title)).None?;
      assert FindFirst(c.keys, k => Overlaps(k, title)).None?;
    }
  }

  /** The text for a title that resolves to no key. */
  function NotFoundText(c: Catalog, title: string): (r: string)
  {
    "❌ Livro \"" + title + "\" não encontrado na nossa base de dados.\n    📚 Livros disponíveis...: "
      + Join(c.keys, ", ")
  }

  /** The pieces of the text for a title that resolved to `book`, in order. */
  function BookCardParts(title: string, book: BookInfo): (r: seq<string>)
    ensures |r| == 13 && r[1] == title
  {
    [ "📖 **", title, "**",
      "\n  👤 **Autor:** ", book.author,
      "\n  📅 **Ano:** ", IntToDecimal(book.year),
      "\n  🎭 **Gênero:** ", book.genre,
      "\n  📄 **Páginas:** ", IntToDecimal(book.pages),
      "\n  📝 **Resumo:** ", book.summary ]
  }

  /** The text for a title that resolved to `book`: headed by the title as asked. */
  function BookCard(title: string, book: BookInfo): string {
    Join(BookCardParts(title, book), "")
  }

  /** `bookLookupTool({title})` on catalog `c`. */
  function BookLookupTool(c: Catalog, title: string): (r: string)
    requires c.Valid()
    ensures ResolveKey(c, title).None? ==> r == NotFoundText(c, title)
    ensures ResolveKey(c, title).Some? ==> r == BookCard(title, c.books[ResolveKey(c, title).value])
  {
    match ResolveKey(c, title)
    case None => NotFoundText(c, title)
    case Some(k) => BookCard(title, c.books[k])
  }

  /** A miss names the title asked for and lists every key of the catalog. */
  lemma NotFoundTextNames(c: Catalog, title: string)
    ensures Contains(NotFoundText(c, title), title)
    ensures forall k :: 0 <= k < |c.keys| ==> Contains(NotFoundText(c, title), c.keys[k])
  {
    var head := "❌ Livro \"";
    var mid := "\" não encontrado na nossa base de dados.\n    📚 Livros disponíveis...: ";
    var list := Join(c.keys, ", ");
    assert NotFoundText(c, title) == head + title + (mid + list);
    ContainsPiece(head, title, mid + list);
    forall k | 0 <= k < |c.keys|
      ensures Contains(NotFoundText(c, title), c.keys[k])
    {
      JoinContainsEach(c.keys, ", ", k);
      ContainsWithin(head + title + mid, list, "", c.keys[k]);
      assert head + title + mid + list + "" == NotFoundText(c, title);
    }
  }

  /** A hit begins with the title as asked and carries every field of the entry. */
  lemma BookCardShows(title: string, book: BookInfo)
    ensures "📖 **" + title + "**" <= BookCard(title, book)
    ensures Contains(BookCard(title, book), book.author)
    ensures Contains(BookCard(title, book), IntToDecimal(book.year))
    ensures Contains(BookCard(title, book), book.genre)
    ensures Contains(BookCard(title, book), IntToDecimal(book.pages))
    ensures Contains(BookCard(title, book), book.summary)
  {
    var parts := BookCardParts(title, book);
    JoinPrefix(parts, "", 3);
    var head := parts[..3];
    assert head == ["📖 **", title, "**"];
    assert head[1..] == [title, "**"] && head[1..][1..] == ["**"];
    assert Join(head[1..][1..], "") == "**";
    assert Join(head[1..], "") == title + "**";
    assert Join(head, "") == "📖 **" + (title + "**");
    assert "📖 **" + (title + "**") == "📖 **" + title + "**";
    JoinContainsEach(parts, "", 4);
    JoinContainsEach(parts, "", 6);
    JoinContainsEach(parts, "", 8);
    JoinContainsEach(parts, "", 10);
    JoinContainsEach(parts, "", 12);
  }

  /** `executeTool`: `book_lookup` goes to the lookup, any other name to a refusal. */
  function ExecuteTool(c: Catalog, call: ToolCall): (r: string)
    requires c.Valid()
    ensures call.toolName == BookLookupName ==> r == BookLookupTool(c, call.title)
  {
    if call.toolName == BookLookupName then BookLookupTool(c, call.title)
    else UnknownToolText(call.toolName)
  }

  function UnknownToolText(name: string): (r: string)
  {
    "❌ Ferramenta \"" + name + "\" não encontrado"
  }

  /** A call to any other tool is answered with a text naming that tool. */
  lemma ExecuteUnknownTool(c: Catalog, call: ToolCall)
    requires c.Valid() && call.toolName != BookLookupName
    ensures ExecuteTool(c, call) == UnknownToolText(call.toolName)
    ensures Contains(ExecuteTool(c, call), call.toolName)
  {
    ContainsPiece("❌ Ferramenta \"", call.toolName, "\" não encontrado");
  }

  /** "dom casmurro" is not a key, and matches "Dom Casmurro" up to case. */
  lemma LowerCaseTitleResolves()
    ensures ResolveKey(BooksDatabase, "dom casmurro") == Some("Dom Casmurro")
  {
    var c := BooksDatabase;
    assert "dom casmurro" !in c.books;
    assert c.keys[0] == "1984";
    assert ToLower("1984")[0] == '1';
    assert ToLower("dom casmurro")[0] == 'd';
    assert !SameIgnoringCase(c.keys[0], "dom casmurro");
    assert ToLower("Dom Casmurro") == "dom casmurro";
    ResolveCaseInsensitive(c, "dom casmurro", 1);
  }
}
