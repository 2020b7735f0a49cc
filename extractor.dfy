/** Per-item field extraction with fallbacks (film_scraper.py:49-69).

    An item node is given by what its five `find` calls return: the text of the
    field node, or `None` when the node is absent. The parsing itself is not modelled. */
module Extractor {
  import opened Wrappers
  import opened Strings

  /** The five `find` results of one film card, in the order the script looks them up. */
  datatype ItemNode = ItemNode(
    title: Option<string>,
    duration: Option<string>,
    author: Option<string>,
    added: Option<string>,
    views: Option<string>)

  /** One row of `data`: the dict with keys Название, Автор, Добавлен,
      Количество просмотров, Продолжительность. */
  datatype Record = Record(
    title: string,
    author: string,
    added: string,
    views: string,
    duration: string)

  /** Placeholder of a missing title ("title not found"). */
  const TitleMissing: string := "Название не найдено"
  /** Placeholder of a missing duration or author ("not specified"). */
  const NotSpecified: string := "Не указано"
  /** Placeholder of a missing publish date or view count ("no data"). */
  const NoData: string := "Нет данных"

  /** What a field holds: the placeholder when its node is absent, otherwise the
      node's text with the surrounding whitespace removed (`raw` is that text after
      any character removal the field applies). */
  ghost predicate FieldFrom(node: Option<string>, raw: string, placeholder: string, r: string) {
    match node
    case None => r == placeholder
    case Some(_) => NoEdgeSpace(r) && exists i :: IsTrimAt(raw, r, i)
  }

  /** A plain field: the stripped text of its node, or the placeholder when the node is absent. */
  function Field(node: Option<string>, placeholder: string): string {
    match node
    case Some(text) => Strip(text)
    case None => placeholder
  }

  /** The view count: the node's text without any no-break space, stripped, or "Нет данных"
      when the node is absent. */
  function ViewsField(node: Option<string>): string {
    match node
    case Some(text) => Strip(RemoveAll(text, Nbsp))
    case None => NoData
  }

  /** One film card to one record. */
  function ExtractItem(node: ItemNode): Record {
    Record(
      title := Field(node.title, TitleMissing),
      author := Field(node.author, NotSpecified),
      added := Field(node.added, NoData),
      views := ViewsField(node.views),
      duration := Field(node.duration, NotSpecified))
  }

  /** Placeholder completeness: every field of an extracted record is present, either
      the text of its node with the surrounding whitespace removed (for the view count,
      after removing every no-break space) or, when the node is absent, that field's
      own placeholder. */
  lemma ExtractItemSpec(node: ItemNode)
    ensures var r := ExtractItem(node);
      && FieldFrom(node.title, node.title.GetOr(""), TitleMissing, r.title)
      && FieldFrom(node.author, node.author.GetOr(""), NotSpecified, r.author)
      && FieldFrom(node.added, node.added.GetOr(""), NoData, r.added)
      && FieldFrom(node.views, RemoveAll(node.views.GetOr(""), Nbsp), NoData, r.views)
      && FieldFrom(node.duration, node.duration.GetOr(""), NotSpecified, r.duration)
  {
    StripSpec(node.title.GetOr(""));
    StripSpec(node.author.GetOr(""));
    StripSpec(node.added.GetOr(""));
    StripSpec(RemoveAll(node.views.GetOr(""), Nbsp));
    StripSpec(node.duration.GetOr(""));
  }

  /** The film cards of one page, extracted in page order. */
  function ExtractAll(nodes: seq<ItemNode>): (rs: seq<Record>)
    ensures |rs| == |nodes|
    ensures forall i :: 0 <= i < |nodes| ==> rs[i] == ExtractItem(nodes[i])
  {
    seq(|nodes|, i requires 0 <= i < |nodes| => ExtractItem(nodes[i]))
  }

  /** The three placeholders are distinct, so a missing title is told apart from the
      other missing fields, and a missing duration or author from a missing date or count. */
  lemma PlaceholdersDistinct()
    ensures TitleMissing != NotSpecified && TitleMissing != NoData && NotSpecified != NoData
  {
  }

  /** The characters of a trimmed text all come from the text it was trimmed from. */
  lemma TrimKeepsChars(s: string, r: string, i: int)
    requires IsTrimAt(s, r, i)
    ensures forall c :: c in r ==> c in s
  {
  }

  /** Every field of an extracted record is free of surrounding whitespace, and the
      view count holds no no-break space, whether its node was present or not. */
  lemma ExtractedFieldsClean(node: ItemNode)
    ensures var r := ExtractItem(node);
      && NoEdgeSpace(r.title) && NoEdgeSpace(r.author) && NoEdgeSpace(r.added)
      && NoEdgeSpace(r.views) && NoEdgeSpace(r.duration)
      && Nbsp !in r.views
  {
    var r := ExtractItem(node);
    PlaceholdersClean();
    ExtractItemSpec(node);
    if node.views.Some? {
      var raw := RemoveAll(node.views.value, Nbsp);
      var i :| IsTrimAt(raw, r.views, i);
      TrimKeepsChars(raw, r.views, i);
      RemoveAllSpec(node.views.value, Nbsp);
    }
  }

  /** The placeholders themselves carry no surrounding whitespace and no no-break space. */
  lemma PlaceholdersClean()
    ensures NoEdgeSpace(TitleMissing) && NoEdgeSpace(NotSpecified) && NoEdgeSpace(NoData)
    ensures Nbsp !in NoData
  {
  }

  /** A field node whose text is whitespace only yields the empty string, not the
      placeholder: only an absent node is replaced. */
  lemma BlankTextGivesEmptyField(text: string, placeholder: string)
    requires SpaceBetween(text, 0, |text|)
    ensures Field(Some(text), placeholder) == []
  {
    StripUnique(text, [], 0);
  }

  /** The view counter "1 234" with a no-break space, padded with whitespace, becomes "1234". */
  lemma ViewsExample()
    ensures ViewsField(Some(" 1\U{A0}234\n")) == "1234"
  {
    NbspRemovedExample();
    assert IsTrimAt(" 1234\n", "1234", 1);
    StripUnique(" 1234\n", "1234", 1);
  }

  lemma NbspRemovedExample()
    ensures RemoveAll(" 1\U{A0}234\n", Nbsp) == " 1234\n"
  {
  }
}
