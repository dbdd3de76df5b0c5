/**
 * The forecast board page: the records it loads, the card each record becomes,
 * and `displayPredictions`, which clears the list container and refills it
 * (an empty-state note, or one card per record in order) and updates the
 * header when the page has one.
 */
module Board {
  import opened Wrappers
  import opened Strings
  import opened Dates
  import opened Icons

  /** One forecast record as read from `data.json`. */
  datatype Record = Record(
    date: string,
    toDate: Option<string>,
    condition: string,
    temperature: string,  // the text the template prints for the value
    notes: Option<string>
  )

  /** How `fetch('data.json?t=…')` ended: a network failure, or a response and the JSON it held. */
  datatype Fetched =
    | NetworkError
    | Response(ok: bool, json: Option<seq<Record>>)  // json: None when the body is not valid JSON

  /**
   * `loadPredictions`: the parsed records of a successful response; a network
   * error, a non-success status or an unreadable body all give the empty list.
   */
  function LoadPredictions(f: Fetched): (records: seq<Record>)
    ensures f.Response? && f.ok && f.json.Some? ==> records == f.json.value
    ensures !(f.Response? && f.ok && f.json.Some?) ==> records == []
  {
    match f
    case NetworkError => []
    case Response(ok, json) =>
      if !ok then [] else
      match json
      case None => []
      case Some(rs) => rs
  }

  /** The unit printed after every temperature. */
  const Celsius: string := "\U{B0}C"

  const EmptyStateMessage: string := "No official forecasts yet."
  const WaitingMessage: string := "Waiting for update..."

  /**
   * What a card shows: icon, condition, date text, temperature text, and the
   * notes paragraph if any. The date text is None where a stored date is not a
   * valid calendar date: the browser's `Date` then prints engine-specific text
   * (a rolled-over day, or "undefined NaN"), which this model does not fix.
   */
  datatype Card = Card(
    icon: Icon,
    condition: string,
    dates: Option<string>,
    temperature: string,
    note: Option<string>
  )

  /** The date text of a record's card, where its dates are valid calendar dates. */
  function DateText(r: Record): Option<string> {
    if RangeDefined(r.date, r.toDate) then Some(DateRange(r.date, r.toDate)) else None
  }

  /** The card of one record (the forEach body, markup aside). */
  function MakeCard(r: Record): (c: Card)
    ensures c.dates.Some? <==> RangeDefined(r.date, r.toDate)
    ensures |c.temperature| == |r.temperature| + |Celsius|
    ensures c.note.Some? <==> Truthy(r.notes)
  {
    Card(
      SelectIcon(r.condition),
      r.condition,
      DateText(r),
      r.temperature + Celsius,
      if Truthy(r.notes) then r.notes else None
    )
  }

  /**
   * What a card shows: the icon its condition selects, the condition, the
   * date range, the temperature followed by "°C", and a notes paragraph
   * exactly when the notes are non-empty, holding those notes.
   */
  lemma CardShows(r: Record)
    ensures var c := MakeCard(r);
      && c.icon == SelectIcon(r.condition) && c.condition == r.condition
      && (RangeDefined(r.date, r.toDate) ==> c.dates == Some(DateRange(r.date, r.toDate)))
      && |c.temperature| == |r.temperature| + 2
      && c.temperature[..|r.temperature|] == r.temperature
      && c.temperature[|r.temperature|..] == Celsius
      && (c.note.Some? <==> Truthy(r.notes))
      && (c.note.Some? ==> c.note == r.notes)
  {
  }

  /** A child element of the list container. */
  datatype Child = EmptyState(message: string) | CardDiv(card: Card)

  /** The text of the header element: a fixed text, or the long form of a date. */
  datatype Header = Text(text: string) | LongDate(isoDate: string)

  /** The cards of a list of records, in order. */
  function CardChildren(rs: seq<Record>): (cs: seq<Child>)
    ensures |cs| == |rs|
    ensures forall i :: 0 <= i < |cs| ==> cs[i].CardDiv?
    decreases |rs|
  {
    if rs == [] then [] else CardChildren(rs[..|rs| - 1]) + [CardDiv(MakeCard(rs[|rs| - 1]))]
  }

  /** Exactly one card per record, the i-th card made from the i-th record. */
  lemma {:induction false} CardChildrenAt(rs: seq<Record>)
    ensures |CardChildren(rs)| == |rs|
    ensures forall i :: 0 <= i < |rs| ==> CardChildren(rs)[i] == CardDiv(MakeCard(rs[i]))
    decreases |rs|
  {
    if rs != [] {
      var front := rs[..|rs| - 1];
      CardChildrenAt(front);
      var cs := CardChildren(rs);
      assert cs == CardChildren(front) + [CardDiv(MakeCard(rs[|rs| - 1]))];
      forall i | 0 <= i < |rs| ensures cs[i] == CardDiv(MakeCard(rs[i])) {
        if i < |rs| - 1 {
          assert cs[i] == CardChildren(front)[i];
          assert front[i] == rs[i];
        }
      }
    }
  }

  /** The date text of a record stored as 2026-02-14 without an end date. */
  lemma ValentinesDateText(r: Record)
    requires r.date == "2026-02-14" && r.toDate == None
    ensures DateText(r) == Some("Feb 14")
  {
    CardDateExample();
    assert RangeDefined(r.date, r.toDate);
    assert DateRange(r.date, r.toDate) == CardDate(r.date);
  }

  /**
   * A record entered as 2026-02-14, "Sunny", 21 and no notes becomes a card
   * with the sunny icon, the label "Feb 14", "21°C" and no notes paragraph.
   */
  lemma SunnyCardExample()
    ensures MakeCard(Record("2026-02-14", None, "Sunny", "21", Some("")))
      == Card(Sunny, "Sunny", Some("Feb 14"), "21" + Celsius, None)
  {
    var r := Record("2026-02-14", None, "Sunny", "21", Some(""));
    ValentinesDateText(r);
    SunnyWordExample();
    assert !Truthy(r.notes);
  }

  /** Rendering one more record appends its card. */
  lemma CardChildrenSnoc(rs: seq<Record>, i: nat)
    requires i < |rs|
    ensures CardChildren(rs[..i + 1]) == CardChildren(rs[..i]) + [CardDiv(MakeCard(rs[i]))]
  {
    assert rs[..i + 1][..i] == rs[..i];
  }

  /** The container's children after rendering a list. */
  function Rendered(rs: seq<Record>): (r: seq<Child>)
    ensures |r| >= 1
    ensures r[0].EmptyState? <==> rs == []
  {
    if rs == [] then [EmptyState(EmptyStateMessage)] else CardChildren(rs)
  }

  /**
   * What rendering leaves in the container: only the empty-state note for an
   * empty list; otherwise one card per record in input order and no note.
   */
  lemma RenderedContents(rs: seq<Record>)
    ensures rs == [] ==> Rendered(rs) == [EmptyState(EmptyStateMessage)]
    ensures rs != [] ==> |Rendered(rs)| == |rs|
    ensures rs != [] ==> forall i :: 0 <= i < |rs| ==> Rendered(rs)[i] == CardDiv(MakeCard(rs[i]))
  {
    CardChildrenAt(rs);
  }

  /**
   * The header after rendering: absent stays absent; otherwise the long date of
   * the first record's normalized date, or the waiting text for an empty list.
   */
  function HeaderAfter(h: Option<Header>, rs: seq<Record>): (r: Option<Header>)
    ensures r.Some? <==> h.Some?
    ensures r.Some? ==> (r.value.Text? <==> rs == [])
    ensures r.Some? && rs == [] ==> r.value == Text(WaitingMessage)
    ensures r.Some? && rs != [] ==> r.value == LongDate(NormalizeDate(rs[0].date))
  {
    if h.None? then None
    else if |rs| > 0 then Some(LongDate(NormalizeDate(rs[0].date)))
    else Some(Text(WaitingMessage))
  }

  /** The page elements `displayPredictions` touches. */
  class Page {
    /** Whether the page has the list container at all. */
    const listPresent: bool
    /** The list container's children. */
    var children: seq<Child>
    /** The header date element's text; None when the page has no such element. */
    var header: Option<Header>

    constructor (listPresent: bool, children: seq<Child>, header: Option<Header>)
      ensures this.listPresent == listPresent
      ensures this.children == children && this.header == header
    {
      this.listPresent := listPresent;
      this.children := children;
      this.header := header;
    }

    /**
     * `displayPredictions`: without a list container nothing changes;
     * otherwise the container is cleared and refilled from the list alone,
     * whatever it held before, and a present header is updated.
     */
    method Render(predictions: seq<Record>)
        modifies this
      ensures !listPresent ==> children == old(children) && header == old(header)
      ensures listPresent ==> children == Rendered(predictions)
      ensures listPresent ==> header == HeaderAfter(old(header), predictions)
    {
      if !listPresent {
        return;
      }
      children := [];
      if header.Some? && |predictions| > 0 {
        header := Some(LongDate(NormalizeDate(predictions[0].date)));
      } else if header.Some? {
        header := Some(Text(WaitingMessage));
      }
      if |predictions| == 0 {
        children := [EmptyState(EmptyStateMessage)];
        return;
      }
      var i := 0;
      while i < |predictions|
        invariant 0 <= i <= |predictions|
        invariant children == CardChildren(predictions[..i])
        invariant header == HeaderAfter(old(header), predictions)
      {
        var card := MakeCard(predictions[i]);
        CardChildrenSnoc(predictions, i);
        children := children + [CardDiv(card)];
        i := i + 1;
      }
      assert predictions[..i] == predictions;
    }
  }

  /** One polling tick: load the records, then render them. */
  method LoadAndDisplay(page: Page, f: Fetched)
    modifies page
    ensures page.listPresent ==> page.children == Rendered(LoadPredictions(f))
    ensures page.listPresent ==> page.header == HeaderAfter(old(page.header), LoadPredictions(f))
    ensures !page.listPresent ==> page.children == old(page.children) && page.header == old(page.header)
  {
    var predictions := LoadPredictions(f);
    page.Render(predictions);
  }

  /**
   * Rendering the same list twice leaves the page as rendering it once does:
   * the second pass replaces the first pass's cards by equal ones.
   */
  method RenderTwice(page: Page, predictions: seq<Record>)
    modifies page
    ensures page.listPresent ==> page.children == Rendered(predictions)
    ensures page.listPresent ==> page.header == HeaderAfter(old(page.header), predictions)
    ensures !page.listPresent ==> page.children == old(page.children) && page.header == old(page.header)
  {
    page.Render(predictions);
    page.Render(predictions);
  }
}
