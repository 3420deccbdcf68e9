/**
 * The knowledge-base chunker: each parsed HTML page becomes one text chunk per
 * HMO, holding the page topic, its description, one bullet per table row with
 * that HMO's benefit, and the HMO's booking phone and details link when known.
 * The HTML parsing and the file glob stay outside: a page arrives as a
 * Document holding what the BeautifulSoup lookups would find.
 */
module DataLoader {
  import opened Wrappers
  import opened Text

  /** re.sub(r"\s+", " ", s): every maximal run of whitespace becomes one space. */
  function Collapse(s: string): (r: string)
    ensures r == [] <==> s == []
    ensures s != [] && !IsSpace(s[0]) ==> r[0] == s[0]
    ensures Collapsed(r)
    decreases |s|
  {
    if s == [] then []
    else if IsSpace(s[0]) then " " + Collapse(StripStart(s[1..]))
    else [s[0]] + Collapse(s[1..])
  }

  /** The only whitespace is single spaces: never another whitespace character, never two in a row. */
  predicate Collapsed(s: string) {
    && (forall i :: 0 <= i < |s| && IsSpace(s[i]) ==> s[i] == ' ')
    && (forall i :: 0 <= i < |s| - 1 && IsSpace(s[i]) ==> !IsSpace(s[i + 1]))
  }

  /**
   * _clean in one left-to-right pass: whitespace before the first visible
   * character is dropped, a whitespace run after one becomes a pending space,
   * written only if another visible character follows.
   */
  function Scan(s: string, started: bool, pending: bool): string {
    if s == [] then []
    else if IsSpace(s[0]) then Scan(s[1..], started, started)
    else (if pending then " " else "") + [s[0]] + Scan(s[1..], true, false)
  }

  /** _clean. */
  function Clean(s: string): string {
    Scan(s, false, false)
  }

  /** rstrip() leaves alone a prefix that ends in a visible character. */
  lemma {:induction false} StripEndAfter(x: string, y: string)
    requires x == [] || !IsSpace(x[|x| - 1])
    ensures StripEnd(x + y) == x + StripEnd(y)
    decreases |y|
  {
    if y == [] {
      assert x + y == x;
      if x != [] {
        assert StripEnd(x) == x;
      }
    } else if IsSpace(y[|y| - 1]) {
      var y' := y[..|y| - 1];
      assert (x + y)[..|x + y| - 1] == x + y';
      StripEndAfter(x, y');
    } else {
      assert StripEnd(y) == y;
    }
  }

  /** After a visible character, the scan is rstrip() of the collapsed rest, with the pending space in front. */
  lemma {:induction false} ScanStarted(s: string)
    ensures Scan(s, true, false) == StripEnd(Collapse(s))
    ensures Scan(s, true, true) == StripEnd(" " + Collapse(StripStart(s)))
    decreases |s|
  {
    if s == [] {
      assert StripEnd(" ") == [];
    } else if IsSpace(s[0]) {
      ScanStarted(s[1..]);
      assert Collapse(s) == " " + Collapse(StripStart(s[1..]));
      assert StripStart(s) == StripStart(s[1..]);
    } else {
      ScanStarted(s[1..]);
      ScanVisible(s);
      ScanVisiblePending(s);
    }
  }

  lemma ScanVisible(s: string)
    requires s != [] && !IsSpace(s[0])
    requires Scan(s[1..], true, false) == StripEnd(Collapse(s[1..]))
    ensures Scan(s, true, false) == StripEnd(Collapse(s))
  {
    var c, rest := s[0], Collapse(s[1..]);
    CollapseVisible(s);
    ScanSteps(s);
    StripEndAfter([c], rest);
  }

  lemma ScanVisiblePending(s: string)
    requires s != [] && !IsSpace(s[0])
    requires Scan(s[1..], true, false) == StripEnd(Collapse(s[1..]))
    ensures Scan(s, true, true) == StripEnd(" " + Collapse(StripStart(s)))
  {
    StripStartVisible(s);
    CollapseVisible(s);
    ScanSteps(s);
    PendingStep(s[0], Collapse(s[1..]), Scan(s[1..], true, false));
  }

  lemma PendingStep(c: char, rest: string, tail: string)
    requires !IsSpace(c) && tail == StripEnd(rest)
    ensures StripEnd(" " + ([c] + rest)) == " " + [c] + tail
  {
    StripEndAfter(" " + [c], rest);
    assert " " + ([c] + rest) == " " + [c] + rest;
  }

  lemma CollapseVisible(s: string)
    requires s != [] && !IsSpace(s[0])
    ensures Collapse(s) == [s[0]] + Collapse(s[1..])
  {
  }

  lemma ScanSteps(s: string)
    requires s != [] && !IsSpace(s[0])
    ensures Scan(s, true, false) == [s[0]] + Scan(s[1..], true, false)
    ensures Scan(s, true, true) == " " + [s[0]] + Scan(s[1..], true, false)
  {
  }

  /** A string that starts with a visible character is its own lstrip(). */
  lemma StripStartVisible(s: string)
    requires s == [] || !IsSpace(s[0])
    ensures StripStart(s) == s
  {
  }

  /** Leading whitespace is dropped before or after collapsing alike. */
  lemma StripStartCollapse(s: string)
    ensures StripStart(Collapse(s)) == Collapse(StripStart(s))
  {
    if s == [] {
    } else if IsSpace(s[0]) {
      var t := StripStart(s[1..]);
      assert StripStart(s) == t;
      var c := Collapse(t);
      assert Collapse(s) == " " + c;
      assert (" " + c)[1..] == c;
      assert StripStart(" " + c) == StripStart(c);
      StripStartVisible(c);
    } else {
      StripStartVisible(s);
      StripStartVisible(Collapse(s));
    }
  }

  /** The scan before any visible character skips leading whitespace. */
  lemma {:induction false} ScanStart(s: string)
    ensures Scan(s, false, false) == Scan(StripStart(s), true, false)
    decreases |s|
  {
    if s != [] && IsSpace(s[0]) {
      ScanStart(s[1..]);
    }
  }

  /** _clean is re.sub(r"\s+", " ", s).strip(). */
  lemma CleanIsCollapseStrip(s: string)
    ensures Clean(s) == Strip(Collapse(s))
  {
    ScanStart(s);
    ScanStarted(StripStart(s));
    StripStartCollapse(s);
  }

  /** _clean's result has no whitespace at either end and no whitespace but single spaces. */
  lemma CleanNormal(s: string)
    ensures Trimmed(Clean(s)) && Collapsed(Clean(s))
  {
    CleanIsCollapseStrip(s);
    StripCollapsed(Collapse(s));
  }

  lemma StripCollapsed(c: string)
    requires Collapsed(c)
    ensures Collapsed(Strip(c))
  {
    var t := StripStart(c);
    StripStartSuffix(c);
    StripEndPrefix(t);
    assert Collapsed(t);
  }

  /** Text already in that form is its own re.sub. */
  lemma {:induction false} CollapseFixed(t: string)
    requires Collapsed(t)
    ensures Collapse(t) == t
    decreases |t|
  {
    if t != [] {
      var rest := t[1..];
      assert Collapsed(rest);
      if IsSpace(t[0]) {
        assert StripStart(rest) == rest;
        CollapseFixed(rest);
        assert t == " " + rest;
      } else {
        CollapseFixed(rest);
        assert t == [t[0]] + rest;
      }
    }
  }

  /** _clean is idempotent, and the identity on text already in its normal form. */
  lemma CleanIdempotent(s: string)
    ensures Clean(Clean(s)) == Clean(s)
  {
    var t := Clean(s);
    CleanNormal(s);
    CollapseFixed(t);
    StripTrimmed(t);
    CleanIsCollapseStrip(t);
  }

  /** The non-whitespace characters of s, in order. */
  function Squeeze(s: string): (r: string)
    ensures forall i :: 0 <= i < |r| ==> !IsSpace(r[i])
  {
    if s == [] then [] else (if IsSpace(s[0]) then [] else [s[0]]) + Squeeze(s[1..])
  }

  lemma {:induction false} SqueezeAppend(a: string, b: string)
    ensures Squeeze(a + b) == Squeeze(a) + Squeeze(b)
  {
    if a != [] {
      assert (a + b)[1..] == a[1..] + b;
      SqueezeAppend(a[1..], b);
    } else {
      assert a + b == b;
    }
  }

  lemma {:induction false} SqueezeSpaces(w: string)
    requires AllSpace(w)
    ensures Squeeze(w) == []
  {
    if w != [] {
      SqueezeSpaces(w[1..]);
    }
  }

  lemma SqueezeStripStart(s: string)
    ensures Squeeze(StripStart(s)) == Squeeze(s)
  {
    var t := StripStart(s);
    StripStartSuffix(s);
    var w := s[..|s| - |t|];
    assert s == w + t;
    SqueezeAppend(w, t);
    SqueezeSpaces(w);
  }

  lemma SqueezeStripEnd(t: string)
    ensures Squeeze(StripEnd(t)) == Squeeze(t)
  {
    var r := StripEnd(t);
    StripEndPrefix(t);
    var w := t[|r|..];
    assert t == r + w;
    SqueezeAppend(r, w);
    SqueezeSpaces(w);
  }

  lemma SqueezeStrip(s: string)
    ensures Squeeze(Strip(s)) == Squeeze(s)
  {
    SqueezeStripStart(s);
    SqueezeStripEnd(StripStart(s));
  }

  lemma {:induction false} SqueezeCollapse(s: string)
    ensures Squeeze(Collapse(s)) == Squeeze(s)
    decreases |s|
  {
    if s != [] {
      if IsSpace(s[0]) {
        var t := StripStart(s[1..]);
        StripStartSuffix(s[1..]);
        SqueezeCollapse(t);
        SqueezeAppend(" ", Collapse(t));
        var w := s[1..][..|s| - 1 - |t|];
        assert s[1..] == w + t;
        SqueezeAppend(w, t);
        SqueezeSpaces(w);
      } else {
        SqueezeCollapse(s[1..]);
        SqueezeAppend([s[0]], Collapse(s[1..]));
      }
    }
  }

  /** _clean loses no visible character: only whitespace is dropped or replaced. */
  lemma CleanKeepsText(s: string)
    ensures Squeeze(Clean(s)) == Squeeze(s)
  {
    CleanIsCollapseStrip(s);
    SqueezeStrip(Collapse(s));
    SqueezeCollapse(s);
  }

  /** Cleaned text holds no newline. */
  lemma CleanNoNewline(s: string)
    ensures '\n' !in Clean(s)
  {
    CleanNormal(s);
  }

  const Maccabi: string := "מכבי"
  const Meuhedet: string := "מאוחדת"
  const Clalit: string := "כללית"

  /** HMO_NAMES, in the order chunks are built. */
  const HmoNames: seq<string> := [Maccabi, Meuhedet, Clalit]

  lemma HmoNamesDistinct()
    ensures Maccabi != Meuhedet && Maccabi != Clalit && Meuhedet != Clalit
  {
    assert Maccabi[1] != Meuhedet[1] && Maccabi[1] != Clalit[1] && Meuhedet[1] != Clalit[1];
  }

  /**
   * _hmo_index: the table column holding an HMO's benefit. Column 0 holds the
   * treatment, so the HMO at position j of HMO_NAMES reads column j + 1; any
   * other name is a KeyError (None).
   */
  function HmoIndex(hmo: string): (r: Option<nat>)
    ensures r.Some? <==> hmo in HmoNames
    ensures forall j :: 0 <= j < |HmoNames| && hmo == HmoNames[j] ==> r == Some(j + 1)
  {
    HmoNamesDistinct();
    if hmo == Maccabi then Some(1)
    else if hmo == Meuhedet then Some(2)
    else if hmo == Clalit then Some(3)
    else None
  }

  /** A sibling of the table: a <p> with its raw text, or any other node. */
  datatype Node = Paragraph(text: string) | OtherNode

  /**
   * The first <table>: its preceding siblings in document order, and for every
   * <tr> (the header row included) the texts its <td> cells yield.
   */
  datatype Table = Table(before: seq<Node>, rows: seq<seq<string>>)

  /** A list found under a heading: no such heading, a heading with no <ul> after it, or the <li> items. */
  datatype Section<T> = NoHeading | NoList | Items(items: seq<T>)

  /** A details <li>: its text, and its <a> if any, whose href may be missing. */
  datatype DetailsItem = DetailsItem(text: string, link: Option<Option<string>>)

  /**
   * One parsed page: the text of the first <h2>, the first <table>, the list
   * after the "phone numbers" heading and the list after the "more details" heading.
   */
  datatype Document = Document(
    heading: Option<string>,
    table: Option<Table>,
    phones: Section<string>,
    details: Section<DetailsItem>)

  /** How a page fails: a lookup on a missing element, a short row or a phone item without ':', a link without href. */
  datatype LoadError = AttributeError | IndexError | KeyError

  /** The cleaned texts of the paragraphs among nodes, in order. */
  function Paragraphs(nodes: seq<Node>): seq<string> {
    if nodes == [] then []
    else
      var rest := Paragraphs(nodes[1..]);
      match nodes[0]
      case Paragraph(t) => [Clean(t)] + rest
      case OtherNode => rest
  }

  /**
   * The page description: find_previous_siblings walks back from the table,
   * and insert(0, ...) puts each paragraph in front, so the parts end up in
   * document order.
   */
  method Description(before: seq<Node>) returns (desc: string)
    ensures desc == Join(Paragraphs(before), " ")
  {
    var parts: seq<string> := [];
    var n := |before|;
    for i := 0 to n
      invariant parts == Paragraphs(before[n - i..])
    {
      var elem := before[n - 1 - i];
      assert before[n - 1 - i..][1..] == before[n - i..];
      if elem.Paragraph? {
        parts := [Clean(elem.text)] + parts;
      }
    }
    assert before[n - n..] == before;
    desc := Join(parts, " ");
  }

  /** rows[1:]: the rows after the header. */
  function Body(rows: seq<seq<string>>): seq<seq<string>> {
    if rows == [] then [] else rows[1..]
  }

  /** [_clean(td) for td in row]. */
  function Cells(row: seq<string>): (r: seq<string>)
    ensures |r| == |row| && forall k :: 0 <= k < |row| ==> r[k] == Clean(row[k])
  {
    seq(|row|, k requires 0 <= k < |row| => Clean(row[k]))
  }

  /** The cleaned cells of every row. */
  function CleanRows(body: seq<seq<string>>): (r: seq<seq<string>>)
    ensures |r| == |body| && forall i :: 0 <= i < |body| ==> r[i] == Cells(body[i])
  {
    seq(|body|, i requires 0 <= i < |body| => Cells(body[i]))
  }

  const Dash: string := " – "

  /** "treatment – benefit" for one row of cleaned cells and one benefit column. */
  function TreatmentLine(cells: seq<string>, col: nat): string
    requires col < |cells|
  {
    cells[0] + Dash + cells[col]
  }

  /** Every row reaches column col. */
  predicate Reaches(table: seq<seq<string>>, col: nat) {
    forall i :: 0 <= i < |table| ==> col < |table[i]|
  }

  /** One treatment line per row, in row order, with the benefit from column col. */
  function TreatmentLines(table: seq<seq<string>>, col: nat): (r: seq<string>)
    requires Reaches(table, col)
    ensures |r| == |table| && forall i :: 0 <= i < |table| ==> r[i] == TreatmentLine(table[i], col)
  {
    seq(|table|, i requires 0 <= i < |table| => TreatmentLine(table[i], col))
  }

  /** treatments_per_hmo, each HMO reading its own column. */
  function PerHmo(table: seq<seq<string>>): map<string, seq<string>>
    requires Reaches(table, 3)
  {
    assert Reaches(table, 1) && Reaches(table, 2);
    map[Maccabi := TreatmentLines(table, 1), Meuhedet := TreatmentLines(table, 2), Clalit := TreatmentLines(table, 3)]
  }

  /** The per-HMO lists before any row: empty. */
  const NoTreatments: map<string, seq<string>> := map[Maccabi := [], Meuhedet := [], Clalit := []]

  /**
   * The table loop over the rows after the header, row by row: each row's
   * cleaned cells add one line per HMO, and a row with fewer than four cells
   * stops it with an IndexError.
   */
  function TreatmentsFrom(body: seq<seq<string>>): (r: Result<map<string, seq<string>>, LoadError>)
    ensures r.Success? ==> r.value.Keys == HmoKeys
  {
    if body == [] then Success(NoTreatments)
    else
      match TreatmentsFrom(body[..|body| - 1])
      case Failure(e) => Failure(e)
      case Success(per) =>
        var cells := Cells(body[|body| - 1]);
        if |cells| < 4 then Failure(IndexError) else Success(AddRow(per, cells))
  }

  /** The treatment table of a page. */
  function TreatmentsOf(rows: seq<seq<string>>): Result<map<string, seq<string>>, LoadError> {
    TreatmentsFrom(Body(rows))
  }

  /** Appending a row appends its line. */
  lemma TreatmentLinesSnoc(table: seq<seq<string>>, cells: seq<string>, col: nat)
    requires Reaches(table, col) && col < |cells|
    ensures Reaches(table + [cells], col)
    ensures TreatmentLines(table + [cells], col) == TreatmentLines(table, col) + [TreatmentLine(cells, col)]
  {
    assert forall i :: 0 <= i < |table| ==> (table + [cells])[i] == table[i];
  }

  lemma HmoNamesIndexDistinct()
    ensures forall a, b :: 0 <= a < |HmoNames| && 0 <= b < |HmoNames| && a != b ==> HmoNames[a] != HmoNames[b]
  {
    HmoNamesDistinct();
  }

  const HmoKeys: set<string> := {Maccabi, Meuhedet, Clalit}

  /** Each HMO's list with one more line, read from its own column of one row. */
  function AddRow(per: map<string, seq<string>>, cells: seq<string>): map<string, seq<string>>
    requires per.Keys == HmoKeys && |cells| >= 4
  {
    map[Maccabi := per[Maccabi] + [TreatmentLine(cells, 1)],
        Meuhedet := per[Meuhedet] + [TreatmentLine(cells, 2)],
        Clalit := per[Clalit] + [TreatmentLine(cells, 3)]]
  }

  lemma PerHmoSnoc(table: seq<seq<string>>, cells: seq<string>)
    requires Reaches(table, 3) && |cells| >= 4
    ensures Reaches(table + [cells], 3)
    ensures PerHmo(table).Keys == HmoKeys
    ensures PerHmo(table + [cells]) == AddRow(PerHmo(table), cells)
  {
    TreatmentLinesSnoc(table, cells, 1);
    TreatmentLinesSnoc(table, cells, 2);
    TreatmentLinesSnoc(table, cells, 3);
  }

  /** The inner loop of the table: one line appended per HMO, failing on a column the row lacks. */
  method AppendRow(per0: map<string, seq<string>>, treatment: string, cells: seq<string>) returns (r: Result<map<string, seq<string>>, LoadError>)
    requires per0.Keys == HmoKeys && cells != [] && treatment == cells[0]
    ensures r.Failure? <==> |cells| < 4
    ensures r.Failure? ==> r.error == IndexError
    ensures r.Success? ==> r.value == AddRow(per0, cells)
  {
    var per := per0;
    HmoNamesIndexDistinct();
    for j := 0 to |HmoNames|
      invariant j <= |cells| - 1
      invariant per.Keys == HmoKeys
      invariant forall k :: 0 <= k < |HmoNames| ==> per[HmoNames[k]] == per0[HmoNames[k]] + (if k < j then [TreatmentLine(cells, k + 1)] else [])
    {
      var hmo := HmoNames[j];
      var idx := HmoIndex(hmo).value;
      if idx >= |cells| {
        r := Failure(IndexError);
        return;
      }
      per := per[hmo := per[hmo] + [treatment + Dash + cells[idx]]];
    }
    assert HmoNames[0] == Maccabi && HmoNames[1] == Meuhedet && HmoNames[2] == Clalit;
    r := Success(per);
  }

  /**
   * The table loop of _load: for each row after the header, the cleaned cells;
   * for each HMO in order, "treatment – benefit" appended to its list.
   */
  method Treatments(rows: seq<seq<string>>) returns (r: Result<map<string, seq<string>>, LoadError>)
    ensures r == TreatmentsOf(rows)
  {
    var body := Body(rows);
    var per: map<string, seq<string>> := map[Maccabi := [], Meuhedet := [], Clalit := []];
    for i := 0 to |body|
      invariant TreatmentsFrom(body[..i]) == Success(per)
    {
      assert body[..i + 1][..i] == body[..i];
      var cells := Cells(body[i]);
      if |cells| == 0 {
        TreatmentsStop(body, i + 1);
        r := Failure(IndexError);
        return;
      }
      var treatment := cells[0];
      var next := AppendRow(per, treatment, cells);
      if next.Failure? {
        TreatmentsStop(body, i + 1);
        r := next;
        return;
      }
      per := next.value;
    }
    assert body[..|body|] == body;
    r := Success(per);
  }

  /** Once a row fails, the rows after it change nothing. */
  lemma {:induction false} TreatmentsStop(body: seq<seq<string>>, n: nat)
    requires n <= |body| && TreatmentsFrom(body[..n]).Failure?
    ensures TreatmentsFrom(body) == TreatmentsFrom(body[..n])
    decreases |body|
  {
    if n < |body| {
      var init := body[..|body| - 1];
      assert init[..n] == body[..n];
      TreatmentsStop(init, n);
    } else {
      assert body[..n] == body;
    }
  }

  /**
   * The table loop computes, row by row, the table-wide reading: every row
   * after the header reaches column 3, and then each HMO's list is read from
   * its own column of every row.
   */
  lemma {:induction false} TreatmentsFromTable(body: seq<seq<string>>)
    ensures TreatmentsFrom(body) == if Reaches(CleanRows(body), 3) then Success(PerHmo(CleanRows(body))) else Failure(IndexError)
  {
    if body != [] {
      var init := body[..|body| - 1];
      var cells := Cells(body[|body| - 1]);
      TreatmentsFromTable(init);
      assert CleanRows(body) == CleanRows(init) + [cells];
      if Reaches(CleanRows(init), 3) && |cells| >= 4 {
        PerHmoSnoc(CleanRows(init), cells);
      } else if Reaches(CleanRows(init), 3) {
        assert !Reaches(CleanRows(body), 3) by {
          assert !(3 < |CleanRows(body)[|body| - 1]|);
        }
      } else {
        assert !Reaches(CleanRows(body), 3) by {
          var k :| 0 <= k < |init| && !(3 < |CleanRows(init)[k]|);
          assert CleanRows(body)[k] == CleanRows(init)[k];
        }
      }
    } else {
      assert PerHmo([]) == NoTreatments;
    }
  }

  /** str.startswith. */
  predicate StartsWith(s: string, prefix: string) {
    prefix <= s
  }

  /** s.split(":", 1)[1]: the text after the first ':', or None where indexing [1] raises. */
  function AfterColon(s: string): (r: Option<string>)
    ensures r.None? <==> ':' !in s
    ensures r.Some? ==> exists i :: 0 <= i < |s| && s[i] == ':' && ':' !in s[..i] && r.value == s[i + 1..]
  {
    if s == [] then None
    else if s[0] == ':' then (assert ':' !in s[..0]; Some(s[1..]))
    else
      var r := AfterColon(s[1..]);
      if r.Some? then
        var i :| 0 <= i < |s[1..]| && s[1..][i] == ':' && ':' !in s[1..][..i] && r.value == s[1..][i + 1..];
        assert s[..i + 1] == [s[0]] + s[1..][..i];
        r
      else
        assert s == [s[0]] + s[1..];
        r
  }

  /** The phone and URL maps start with the empty string for every HMO. */
  const Blank: map<string, string> := map[Maccabi := "", Meuhedet := "", Clalit := ""]

  /** What a phone item sets: the trimmed text after its first ':' (only read when there is one). */
  function PhoneValue(txt: string): string {
    match AfterColon(txt)
    case Some(after) => Strip(after)
    case None => ""
  }

  /** An HMO's phone: the value of the last item whose cleaned text starts with its name, or "". */
  function PhoneOf(items: seq<string>, hmo: string): string {
    if items == [] then ""
    else
      var txt := Clean(items[|items| - 1]);
      if StartsWith(txt, hmo) then PhoneValue(txt) else PhoneOf(items[..|items| - 1], hmo)
  }

  /** A cleaned phone item that starts with an HMO name holds a ':'. */
  predicate PhoneItemFits(txt: string) {
    forall j :: 0 <= j < |HmoNames| && StartsWith(txt, HmoNames[j]) ==> ':' in txt
  }

  predicate PhonesFit(items: seq<string>) {
    forall i :: 0 <= i < |items| ==> PhoneItemFits(Clean(items[i]))
  }

  function PhonesOfItems(items: seq<string>): map<string, string> {
    map[Maccabi := PhoneOf(items, Maccabi), Meuhedet := PhoneOf(items, Meuhedet), Clalit := PhoneOf(items, Clalit)]
  }

  /**
   * phone_map: all empty without the heading, an AttributeError when no <ul>
   * follows it, an IndexError for an HMO item without ':'.
   */
  function PhonesOf(section: Section<string>): Result<map<string, string>, LoadError> {
    match section
    case NoHeading => Success(Blank)
    case NoList => Failure(AttributeError)
    case Items(items) => if PhonesFit(items) then Success(PhonesOfItems(items)) else Failure(IndexError)
  }

  /** The phone map after one more item. */
  function PhoneUpdate(per: map<string, string>, txt: string): map<string, string>
    requires per.Keys == HmoKeys
  {
    map[Maccabi := if StartsWith(txt, Maccabi) then PhoneValue(txt) else per[Maccabi],
        Meuhedet := if StartsWith(txt, Meuhedet) then PhoneValue(txt) else per[Meuhedet],
        Clalit := if StartsWith(txt, Clalit) then PhoneValue(txt) else per[Clalit]]
  }

  lemma PhonesSnoc(items: seq<string>, item: string)
    ensures PhonesOfItems(items + [item]) == PhoneUpdate(PhonesOfItems(items), Clean(item))
    ensures PhonesFit(items + [item]) <==> PhonesFit(items) && PhoneItemFits(Clean(item))
  {
    var all := items + [item];
    assert all[..|all| - 1] == items;
    assert forall i :: 0 <= i < |items| ==> all[i] == items[i];
  }

  /** The phone map after the first n HMOs of HMO_NAMES have looked at one item. */
  function PhoneSteps(per: map<string, string>, txt: string, n: nat): map<string, string>
    requires n <= |HmoNames|
  {
    if n == 0 then per
    else
      var p := PhoneSteps(per, txt, n - 1);
      if StartsWith(txt, HmoNames[n - 1]) then p[HmoNames[n - 1] := PhoneValue(txt)] else p
  }

  lemma PhoneStepsAll(per: map<string, string>, txt: string)
    requires per.Keys == HmoKeys
    ensures PhoneSteps(per, txt, |HmoNames|) == PhoneUpdate(per, txt)
  {
    HmoNamesDistinct();
    var v := PhoneValue(txt);
    assert HmoNames[0] == Maccabi && HmoNames[1] == Meuhedet && HmoNames[2] == Clalit;
    assert PhoneSteps(per, txt, 0) == per;
    var p1 := if StartsWith(txt, Maccabi) then per[Maccabi := v] else per;
    assert PhoneSteps(per, txt, 1) == p1;
    var p2 := if StartsWith(txt, Meuhedet) then p1[Meuhedet := v] else p1;
    assert PhoneSteps(per, txt, 2) == p2;
    var p3 := if StartsWith(txt, Clalit) then p2[Clalit := v] else p2;
    assert PhoneSteps(per, txt, 3) == p3;
    assert p3.Keys == HmoKeys;
  }

  /** The inner loop over one phone item: each HMO it starts with gets the text after the ':'. */
  method SetPhone(per0: map<string, string>, txt: string) returns (r: Result<map<string, string>, LoadError>)
    requires per0.Keys == HmoKeys
    ensures r.Failure? <==> !PhoneItemFits(txt)
    ensures r.Failure? ==> r.error == IndexError
    ensures r.Success? ==> r.value == PhoneUpdate(per0, txt)
  {
    var per := per0;
    for j := 0 to |HmoNames|
      invariant forall k :: 0 <= k < j && StartsWith(txt, HmoNames[k]) ==> ':' in txt
      invariant per == PhoneSteps(per0, txt, j)
    {
      var hmo := HmoNames[j];
      if StartsWith(txt, hmo) {
        var after := AfterColon(txt);
        if after.None? {
          r := Failure(IndexError);
          return;
        }
        per := per[hmo := Strip(after.value)];
      }
    }
    PhoneStepsAll(per0, txt);
    r := Success(per);
  }

  lemma PhoneLoopStep(items: seq<string>, i: nat)
    requires i < |items|
    ensures PhonesOfItems(items[..i + 1]) == PhoneUpdate(PhonesOfItems(items[..i]), Clean(items[i]))
    ensures PhonesFit(items[..i + 1]) <==> PhonesFit(items[..i]) && PhoneItemFits(Clean(items[i]))
  {
    assert items[..i + 1] == items[..i] + [items[i]];
    PhonesSnoc(items[..i], items[i]);
  }

  lemma PhonesFitPrefix(items: seq<string>, n: nat)
    requires n <= |items|
    ensures PhonesFit(items) ==> PhonesFit(items[..n])
  {
    assert forall i :: 0 <= i < n ==> items[..n][i] == items[i];
  }

  /** The phone loop of _load. */
  method PhoneMap(section: Section<string>) returns (r: Result<map<string, string>, LoadError>)
    ensures r == PhonesOf(section)
  {
    match section
    case NoHeading => r := Success(Blank);
    case NoList => r := Failure(AttributeError);
    case Items(items) =>
      var per := Blank;
      assert PhonesOfItems(items[..0]) == per;
      for i := 0 to |items|
        invariant PhonesFit(items[..i])
        invariant per == PhonesOfItems(items[..i])
      {
        PhoneLoopStep(items, i);
        var next := SetPhone(per, Clean(items[i]));
        if next.Failure? {
          PhonesFitPrefix(items, i + 1);
          r := next;
          return;
        }
        per := next.value;
      }
      assert items[..|items|] == items;
      r := Success(per);
  }

  /** next((h for h in names if t.startswith(h)), None). */
  function FirstName(t: string, names: seq<string>): Option<string> {
    if names == [] then None
    else if StartsWith(t, names[0]) then Some(names[0])
    else FirstName(t, names[1..])
  }

  /** FirstName finds the first name t starts with, and None exactly when t starts with none of them. */
  lemma {:induction false} FirstNameSpec(t: string, names: seq<string>)
    ensures FirstName(t, names).None? <==> forall j :: 0 <= j < |names| ==> !StartsWith(t, names[j])
    ensures FirstName(t, names).Some? ==>
      (exists j :: 0 <= j < |names| && names[j] == FirstName(t, names).value
         && StartsWith(t, names[j]) && (forall k :: 0 <= k < j ==> !StartsWith(t, names[k])))
  {
    if names != [] && !StartsWith(t, names[0]) {
      FirstNameSpec(t, names[1..]);
      assert forall j :: 1 <= j < |names| ==> names[j] == names[1..][j - 1];
      if FirstName(t, names).Some? {
        var j :| 0 <= j < |names[1..]| && names[1..][j] == FirstName(t, names).value
          && StartsWith(t, names[1..][j]) && (forall k :: 0 <= k < j ==> !StartsWith(t, names[1..][k]));
        assert names[j + 1] == names[1..][j];
      }
    } else if names != [] {
      assert names[0] == FirstName(t, names).value;
    }
  }

  /**
   * The HMO a details item is about: the first name its text starts with once
   * leading whitespace is dropped (ItemHmoStrip: the same as after strip()).
   */
  function ItemHmo(item: DetailsItem): Option<string> {
    FirstName(StripStart(item.text), HmoNames)
  }

  /** A name that ends in a non-space character starts a text's strip() exactly when it starts its lstrip(). */
  lemma StartsWithStripped(t: string, h: string)
    requires h != [] && !IsSpace(h[|h| - 1])
    ensures StartsWith(Strip(t), h) <==> StartsWith(StripStart(t), h)
  {
    var u := StripStart(t);
    var r := StripEnd(u);
    StripEndPrefix(u);
    if StartsWith(u, h) {
      assert u[|h| - 1] == h[|h| - 1];
      assert |h| <= |r|;
      assert h == r[..|h|];
    }
  }

  lemma {:induction false} FirstNameAgree(t: string, u: string, names: seq<string>)
    requires forall j :: 0 <= j < |names| ==> (StartsWith(t, names[j]) <==> StartsWith(u, names[j]))
    ensures FirstName(t, names) == FirstName(u, names)
  {
    if names != [] {
      assert forall j :: 0 <= j < |names| - 1 ==> names[1..][j] == names[j + 1];
      FirstNameAgree(t, u, names[1..]);
    }
  }

  /** ItemHmo is the first of HMO_NAMES that li.text.strip() starts with. */
  lemma ItemHmoStrip(item: DetailsItem)
    ensures ItemHmo(item) == FirstName(Strip(item.text), HmoNames)
  {
    assert HmoNames[0] == Maccabi && HmoNames[1] == Meuhedet && HmoNames[2] == Clalit;
    StartsWithStripped(item.text, Maccabi);
    StartsWithStripped(item.text, Meuhedet);
    StartsWithStripped(item.text, Clalit);
    FirstNameAgree(StripStart(item.text), Strip(item.text), HmoNames);
  }

  /** What the details loop uses of an item: the HMO it is about and its <a>, if any, with its href, if any. */
  datatype Tag = Tag(name: Option<string>, link: Option<Option<string>>)

  function TagOf(item: DetailsItem): Tag {
    Tag(ItemHmo(item), item.link)
  }

  function Tags(items: seq<DetailsItem>): (r: seq<Tag>)
    ensures |r| == |items|
  {
    if items == [] then [] else Tags(items[..|items| - 1]) + [TagOf(items[|items| - 1])]
  }

  lemma TagsSnoc(items: seq<DetailsItem>, item: DetailsItem)
    ensures Tags(items + [item]) == Tags(items) + [TagOf(item)]
  {
    assert (items + [item])[..|items|] == items;
  }

  /** An item about an HMO whose <a> has no href raises a KeyError. */
  predicate TagFits(tag: Tag) {
    tag.name.Some? && tag.link.Some? ==> tag.link.value.Some?
  }

  predicate TagsFit(tags: seq<Tag>) {
    forall i :: 0 <= i < |tags| ==> TagFits(tags[i])
  }

  /** The href an item about name, with link, sets for hmo, if it sets one. */
  predicate SetsUrl(tag: Tag, hmo: string) {
    tag.name == Some(hmo) && tag.link.Some? && tag.link.value.Some?
  }

  /** An HMO's URL: the href of the last item about it that has a link, or "". */
  function UrlOf(tags: seq<Tag>, hmo: string): string {
    if tags == [] then ""
    else if SetsUrl(tags[|tags| - 1], hmo) then tags[|tags| - 1].link.value.value
    else UrlOf(tags[..|tags| - 1], hmo)
  }

  function UrlsOfTags(tags: seq<Tag>): map<string, string> {
    map[Maccabi := UrlOf(tags, Maccabi), Meuhedet := UrlOf(tags, Meuhedet), Clalit := UrlOf(tags, Clalit)]
  }

  /** url_map: all empty without the heading, an AttributeError when no <ul> follows it. */
  function UrlsOf(section: Section<DetailsItem>): Result<map<string, string>, LoadError> {
    match section
    case NoHeading => Success(Blank)
    case NoList => Failure(AttributeError)
    case Items(items) => if TagsFit(Tags(items)) then Success(UrlsOfTags(Tags(items))) else Failure(KeyError)
  }

  /** The URL map after one more item. */
  function UrlStep(per: map<string, string>, tag: Tag): map<string, string>
    requires per.Keys == HmoKeys
  {
    map[Maccabi := if SetsUrl(tag, Maccabi) then tag.link.value.value else per[Maccabi],
        Meuhedet := if SetsUrl(tag, Meuhedet) then tag.link.value.value else per[Meuhedet],
        Clalit := if SetsUrl(tag, Clalit) then tag.link.value.value else per[Clalit]]
  }

  lemma TagsFitSnoc(tags: seq<Tag>, tag: Tag)
    ensures TagsFit(tags + [tag]) <==> TagsFit(tags) && TagFits(tag)
  {
    var all := tags + [tag];
    assert forall i :: 0 <= i < |tags| ==> all[i] == tags[i];
    assert all[|tags|] == tag;
  }

  lemma UrlsSnoc(tags: seq<Tag>, tag: Tag)
    ensures UrlsOfTags(tags + [tag]) == UrlStep(UrlsOfTags(tags), tag)
  {
    var all := tags + [tag];
    assert all[..|all| - 1] == tags;
    assert all[|all| - 1] == tag;
  }

  /** A misfit among the first n items is a misfit of the whole list. */
  lemma {:induction false} TagsFitPrefix(items: seq<DetailsItem>, n: nat)
    requires n <= |items|
    ensures TagsFit(Tags(items)) ==> TagsFit(Tags(items[..n]))
    decreases |items|
  {
    if n < |items| {
      var init := items[..|items| - 1];
      assert Tags(items) == Tags(init) + [TagOf(items[|items| - 1])];
      TagsFitSnoc(Tags(init), TagOf(items[|items| - 1]));
      TagsFitPrefix(init, n);
      assert init[..n] == items[..n];
    } else {
      assert items[..n] == items;
    }
  }

  /** The HMO an item is about is one of HMO_NAMES. */
  lemma ItemHmoKnown(item: DetailsItem)
    ensures ItemHmo(item).Some? ==> ItemHmo(item).value in HmoKeys
  {
    FirstNameSpec(StripStart(item.text), HmoNames);
  }

  /** One item changes at most the entry of the HMO it is about. */
  lemma UrlStepUpdate(per: map<string, string>, tag: Tag)
    requires per.Keys == HmoKeys && (tag.name.Some? ==> tag.name.value in HmoKeys)
    ensures !(tag.name.Some? && tag.link.Some? && tag.link.value.Some?) ==> UrlStep(per, tag) == per
    ensures tag.name.Some? && tag.link.Some? && tag.link.value.Some? ==> UrlStep(per, tag) == per[tag.name.value := tag.link.value.value]
  {
    HmoNamesDistinct();
  }

  lemma DetailsLoopStep(items: seq<DetailsItem>, i: nat)
    requires i < |items|
    ensures UrlsOfTags(Tags(items[..i + 1])) == UrlStep(UrlsOfTags(Tags(items[..i])), TagOf(items[i]))
    ensures TagsFit(Tags(items[..i + 1])) <==> TagsFit(Tags(items[..i])) && TagFits(TagOf(items[i]))
  {
    assert items[..i + 1] == items[..i] + [items[i]];
    TagsSnoc(items[..i], items[i]);
    UrlsSnoc(Tags(items[..i]), TagOf(items[i]));
    TagsFitSnoc(Tags(items[..i]), TagOf(items[i]));
  }

  /** The body of the details loop for one <li>: the href of its <a> goes to the HMO its text starts with. */
  method AddDetails(per: map<string, string>, item: DetailsItem) returns (r: Result<map<string, string>, LoadError>)
    requires per.Keys == HmoKeys
    ensures r.Failure? <==> !TagFits(TagOf(item))
    ensures r.Failure? ==> r.error == KeyError
    ensures r.Success? ==> r.value == UrlStep(per, TagOf(item))
  {
    var hmoName := ItemHmo(item);
    ItemHmoKnown(item);
    UrlStepUpdate(per, TagOf(item));
    if hmoName.None? {
      return Success(per);
    }
    var link := item.link;
    if link.None? {
      return Success(per);
    }
    if link.value.None? {
      return Failure(KeyError);
    }
    return Success(per[hmoName.value := link.value.value]);
  }

  /** The details loop of _load. */
  method UrlMap(section: Section<DetailsItem>) returns (r: Result<map<string, string>, LoadError>)
    ensures r == UrlsOf(section)
  {
    match section
    case NoHeading => r := Success(Blank);
    case NoList => r := Failure(AttributeError);
    case Items(items) =>
      var per := Blank;
      assert UrlsOfTags(Tags(items[..0])) == per;
      for i := 0 to |items|
        invariant TagsFit(Tags(items[..i]))
        invariant per == UrlsOfTags(Tags(items[..i]))
      {
        DetailsLoopStep(items, i);
        var next := AddDetails(per, items[i]);
        if next.Failure? {
          TagsFitPrefix(items, i + 1);
          r := next;
          return;
        }
        per := next.value;
      }
      assert items[..|items|] == items;
      r := Success(per);
  }

  /** One knowledge-base chunk: the HMO it is for, the page topic, and its text. */
  datatype Chunk = Chunk(hmo: string, topic: string, text: string)

  const TopicSep: string := " | "
  const BenefitsHeading: string := "טיפולים והטבות"
  const Bullet: string := "• "
  const PhonePrefix: string := "טלפון להזמנת טיפולים: "
  const UrlPrefix: string := "מידע נוסף: "

  /** What _load gathers from one page before building its chunks. */
  datatype Page = Page(
    topic: string,
    description: string,
    treatments: map<string, seq<string>>,
    phones: map<string, string>,
    urls: map<string, string>)

  predicate PageFits(page: Page) {
    page.treatments.Keys == HmoKeys && page.phones.Keys == HmoKeys && page.urls.Keys == HmoKeys
  }

  /**
   * The page a document yields, or the first error _load runs into: the topic
   * needs an <h2>, the description and the treatments need a <table>, then the
   * table, the phone list and the details list are read in that order.
   */
  function ParsePage(doc: Document): (r: Result<Page, LoadError>)
    ensures r.Success? ==> PageFits(r.value)
  {
    if doc.heading.None? || doc.table.None? then Failure(AttributeError)
    else
      var treatments := TreatmentsOf(doc.table.value.rows);
      var phones := PhonesOf(doc.phones);
      var urls := UrlsOf(doc.details);
      if treatments.Failure? then Failure(treatments.error)
      else if phones.Failure? then Failure(phones.error)
      else if urls.Failure? then Failure(urls.error)
      else
        Success(Page(Clean(doc.heading.value), Join(Paragraphs(doc.table.value.before), " "),
                     treatments.value, phones.value, urls.value))
  }

  /** The reading part of _load for one document: topic, description, treatments, phones and URLs. */
  method ReadPage(doc: Document) returns (r: Result<Page, LoadError>)
    ensures r == ParsePage(doc)
  {
    if doc.heading.None? {
      return Failure(AttributeError);
    }
    var topic := Clean(doc.heading.value);
    if doc.table.None? {
      return Failure(AttributeError);
    }
    var table := doc.table.value;
    var desc := Description(table.before);
    var treatments := Treatments(table.rows);
    if treatments.Failure? {
      return Failure(treatments.error);
    }
    var phones := PhoneMap(doc.phones);
    if phones.Failure? {
      return Failure(phones.error);
    }
    var urls := UrlMap(doc.details);
    if urls.Failure? {
      return Failure(urls.error);
    }
    return Success(Page(topic, desc, treatments.value, phones.value, urls.value));
  }

  /** [f"• {line}" for line in lines]. */
  function Bullets(lines: seq<string>): seq<string> {
    seq(|lines|, i requires 0 <= i < |lines| => Bullet + lines[i])
  }

  /** The lines of one HMO's chunk, before they are joined with "\n". */
  function ChunkLines(page: Page, hmo: string): seq<string>
    requires PageFits(page) && hmo in HmoKeys
  {
    [page.topic + TopicSep + hmo, page.description, "", BenefitsHeading]
    + Bullets(page.treatments[hmo])
    + (if page.phones[hmo] != "" then ["", PhonePrefix + page.phones[hmo]] else [])
    + (if page.urls[hmo] != "" then [UrlPrefix + page.urls[hmo]] else [])
  }

  function ChunkOf(page: Page, hmo: string): Chunk
    requires PageFits(page) && hmo in HmoKeys
  {
    Chunk(hmo, page.topic, Join(ChunkLines(page, hmo), "\n"))
  }

  /** One chunk per name, in order. */
  function ChunksFor(page: Page, names: seq<string>): (r: seq<Chunk>)
    requires PageFits(page) && forall j :: 0 <= j < |names| ==> names[j] in HmoKeys
    ensures |r| == |names|
  {
    if names == [] then [] else ChunksFor(page, names[..|names| - 1]) + [ChunkOf(page, names[|names| - 1])]
  }

  lemma ChunksForSnoc(page: Page, prior: seq<string>, hmo: string)
    requires PageFits(page) && hmo in HmoKeys && forall j :: 0 <= j < |prior| ==> prior[j] in HmoKeys
    ensures ChunksFor(page, prior + [hmo]) == ChunksFor(page, prior) + [ChunkOf(page, hmo)]
  {
    assert (prior + [hmo])[..|prior|] == prior;
  }

  /** The chunks of a page: one per HMO, in HMO_NAMES order. */
  function PageChunks(page: Page): seq<Chunk>
    requires PageFits(page)
  {
    ChunksFor(page, HmoNames)
  }

  function DocumentChunks(doc: Document): Result<seq<Chunk>, LoadError> {
    match ParsePage(doc)
    case Success(page) => Success(PageChunks(page))
    case Failure(e) => Failure(e)
  }

  /**
   * _load over the documents in order: the chunks appended and the error that
   * stopped it, if any; the chunks of the documents before a failing one stay.
   */
  function LoadAll(docs: seq<Document>): (seq<Chunk>, Option<LoadError>) {
    if docs == [] then ([], None)
    else
      var before := LoadAll(docs[..|docs| - 1]);
      if before.1.Some? then before
      else
        match DocumentChunks(docs[|docs| - 1])
        case Success(cs) => (before.0 + cs, None)
        case Failure(e) => (before.0, Some(e))
  }

  /** ChunkedKnowledgeBase: the chunks list that _load fills in place. */
  class ChunkedKnowledgeBase {
    var chunks: seq<Chunk>

    /** self.chunks = []. */
    constructor Empty()
      ensures chunks == []
    {
      chunks := [];
    }

    /** The body of _load for one document: three chunks appended, or an error and nothing appended. */
    method LoadDocument(doc: Document) returns (err: Option<LoadError>)
      modifies this
      ensures DocumentChunks(doc).Success? ==> err.None? && chunks == old(chunks) + DocumentChunks(doc).value
      ensures DocumentChunks(doc).Failure? ==> err == Some(DocumentChunks(doc).error) && chunks == old(chunks)
    {
      var page := ReadPage(doc);
      if page.Failure? {
        return Some(page.error);
      }
      AppendChunks(page.value);
      err := None;
    }

    /** The last loop of _load: one chunk per HMO, in HMO_NAMES order, appended to self.chunks. */
    method AppendChunks(page: Page)
      requires PageFits(page)
      modifies this
      ensures chunks == old(chunks) + PageChunks(page)
    {
      for j := 0 to |HmoNames|
        invariant chunks == old(chunks) + ChunksFor(page, HmoNames[..j])
      {
        var hmo := HmoNames[j];
        var lines := [page.topic + TopicSep + hmo, page.description, "", BenefitsHeading] + Bullets(page.treatments[hmo]);
        if page.phones[hmo] != "" {
          lines := lines + ["", PhonePrefix + page.phones[hmo]];
        }
        if page.urls[hmo] != "" {
          lines := lines + [UrlPrefix + page.urls[hmo]];
        }
        assert lines == ChunkLines(page, hmo);
        AppendAssoc(old(chunks), ChunksFor(page, HmoNames[..j]), [ChunkOf(page, hmo)]);
        chunks := chunks + [Chunk(hmo, page.topic, Join(lines, "\n"))];
        assert HmoNames[..j + 1] == HmoNames[..j] + [hmo];
        ChunksForSnoc(page, HmoNames[..j], hmo);
      }
      assert HmoNames[..|HmoNames|] == HmoNames;
    }

    /** _load: every document in turn, stopping at the first error. */
    method Load(docs: seq<Document>) returns (err: Option<LoadError>)
      modifies this
      ensures chunks == old(chunks) + LoadAll(docs).0
      ensures err == LoadAll(docs).1
    {
      ghost var start := chunks;
      for i := 0 to |docs|
        invariant chunks == start + LoadAll(docs[..i]).0
        invariant LoadAll(docs[..i]).1.None?
      {
        assert docs[..i + 1][..i] == docs[..i];
        ghost var loaded := LoadAll(docs[..i]).0;
        err := LoadDocument(docs[i]);
        if err.None? {
          AppendAssoc(start, loaded, DocumentChunks(docs[i]).value);
        } else {
          LoadAllStops(docs, i + 1);
          return;
        }
      }
      assert docs[..|docs|] == docs;
      err := None;
    }
  }

  lemma AppendAssoc<T>(a: seq<T>, b: seq<T>, c: seq<T>)
    ensures a + b + c == a + (b + c)
  {
  }

  /** Once a document fails, the documents after it change nothing. */
  lemma {:induction false} LoadAllStops(docs: seq<Document>, n: nat)
    requires n <= |docs| && LoadAll(docs[..n]).1.Some?
    ensures LoadAll(docs) == LoadAll(docs[..n])
    decreases |docs|
  {
    if n < |docs| {
      var init := docs[..|docs| - 1];
      assert init[..n] == docs[..n];
      LoadAllStops(init, n);
    } else {
      assert docs[..n] == docs;
    }
  }

  /**
   * ChunkedKnowledgeBase(data_dir): a knowledge base holding the chunks of all
   * documents, or the error that made the constructor raise.
   */
  method Open(docs: seq<Document>) returns (r: Result<ChunkedKnowledgeBase, LoadError>)
    ensures r.Success? <==> LoadAll(docs).1.None?
    ensures r.Success? ==> fresh(r.value) && r.value.chunks == LoadAll(docs).0
    ensures r.Failure? ==> r.error == LoadAll(docs).1.value
  {
    var kb := new ChunkedKnowledgeBase.Empty();
    var err := kb.Load(docs);
    if err.Some? {
      return Failure(err.value);
    }
    return Success(kb);
  }

  // ---------------------------------------------------------------------
  // What the chunks hold
  // ---------------------------------------------------------------------

  lemma {:induction false} ChunksForAt(page: Page, names: seq<string>)
    requires PageFits(page) && forall j :: 0 <= j < |names| ==> names[j] in HmoKeys
    ensures forall j :: 0 <= j < |names| ==> ChunksFor(page, names)[j] == ChunkOf(page, names[j])
  {
    if names != [] {
      var init := names[..|names| - 1];
      ChunksForAt(page, init);
      assert forall j :: 0 <= j < |init| ==> init[j] == names[j];
    }
  }

  /**
   * A document that loads gives exactly three chunks, one per HMO in
   * HMO_NAMES order, each tagged with the cleaned <h2> text as its topic.
   */
  lemma DocumentChunksShape(doc: Document)
    requires DocumentChunks(doc).Success?
    ensures doc.heading.Some?
    ensures |DocumentChunks(doc).value| == |HmoNames|
    ensures forall j :: 0 <= j < |HmoNames| ==>
      DocumentChunks(doc).value[j].hmo == HmoNames[j] && DocumentChunks(doc).value[j].topic == Clean(doc.heading.value)
  {
    var page := ParsePage(doc).value;
    ChunksForAt(page, HmoNames);
  }

  /** Without a failure, the last document's chunks come after those of the documents before it. */
  lemma LoadAllLast(docs: seq<Document>)
    requires docs != [] && LoadAll(docs).1.None?
    ensures LoadAll(docs[..|docs| - 1]).1.None? && DocumentChunks(docs[|docs| - 1]).Success?
    ensures LoadAll(docs).0 == LoadAll(docs[..|docs| - 1]).0 + DocumentChunks(docs[|docs| - 1]).value
  {
  }

  /** The chunks of a document sit at three consecutive positions of what _load appends. */
  lemma {:induction false} LoadAllShape(docs: seq<Document>)
    requires LoadAll(docs).1.None?
    ensures |LoadAll(docs).0| == |HmoNames| * |docs|
    ensures forall i :: 0 <= i < |docs| ==>
      DocumentChunks(docs[i]).Success? && LoadAll(docs).0[3 * i..3 * i + 3] == DocumentChunks(docs[i]).value
  {
    if docs != [] {
      var n := |docs| - 1;
      var init := docs[..n];
      LoadAllLast(docs);
      LoadAllShape(init);
      var before := LoadAll(init).0;
      var cs := DocumentChunks(docs[n]).value;
      DocumentChunksShape(docs[n]);
      forall i | 0 <= i < |docs|
        ensures DocumentChunks(docs[i]).Success? && (before + cs)[3 * i..3 * i + 3] == DocumentChunks(docs[i]).value
      {
        BlockAppend(before, cs, n, i);
        if i < n {
          assert docs[i] == init[i];
        }
      }
    }
  }

  lemma BlockAppend<T>(before: seq<T>, cs: seq<T>, k: nat, i: nat)
    requires |before| == 3 * k && |cs| == 3 && i <= k
    ensures i < k ==> (before + cs)[3 * i..3 * i + 3] == before[3 * i..3 * i + 3]
    ensures i == k ==> (before + cs)[3 * i..3 * i + 3] == cs
  {
  }

  /** Line 4 + i of a chunk is the bullet of the HMO's treatment line i. */
  lemma ChunkLineBullet(page: Page, hmo: string, i: nat)
    requires PageFits(page) && hmo in HmoKeys && i < |page.treatments[hmo]|
    ensures ChunkLines(page, hmo)[4 + i] == Bullet + page.treatments[hmo][i]
  {
  }

  lemma PerHmoAt(table: seq<seq<string>>, j: nat)
    requires Reaches(table, 3) && j < |HmoNames|
    ensures Reaches(table, j + 1) && PerHmo(table)[HmoNames[j]] == TreatmentLines(table, j + 1)
  {
    HmoNamesDistinct();
    if j == 0 {
      assert HmoNames[j] == Maccabi;
    } else if j == 1 {
      assert HmoNames[j] == Meuhedet;
    } else {
      assert HmoNames[j] == Clalit;
    }
  }

  /** Treatment line i of an HMO reads row i after the header: the treatment cell, the dash, that HMO's cell. */
  lemma TreatmentAt(body: seq<seq<string>>, j: nat, i: nat)
    requires TreatmentsFrom(body).Success? && j < |HmoNames| && i < |body|
    ensures |TreatmentsFrom(body).value[HmoNames[j]]| == |body|
    ensures |body[i]| >= 4
    ensures TreatmentsFrom(body).value[HmoNames[j]][i] == Clean(body[i][0]) + Dash + Clean(body[i][j + 1])
  {
    var table := CleanRows(body);
    TreatmentsFromTable(body);
    PerHmoAt(table, j);
    var lines := TreatmentLines(table, j + 1);
    assert lines[i] == TreatmentLine(table[i], j + 1);
    assert table[i] == Cells(body[i]);
  }

  /**
   * Bullet i of an HMO's chunk comes from row i after the header: the
   * cleaned treatment cell, the dash, and the cleaned cell of that HMO's
   * column; there is one bullet per row.
   */
  lemma ChunkBullet(doc: Document, j: nat, i: nat)
    requires ParsePage(doc).Success? && j < |HmoNames|
    requires i < |Body(doc.table.value.rows)|
    ensures |ParsePage(doc).value.treatments[HmoNames[j]]| == |Body(doc.table.value.rows)|
    ensures |Body(doc.table.value.rows)[i]| >= 4
    ensures ChunkLines(ParsePage(doc).value, HmoNames[j])[4 + i]
      == Bullet + (Clean(Body(doc.table.value.rows)[i][0]) + Dash + Clean(Body(doc.table.value.rows)[i][j + 1]))
  {
    var page := ParsePage(doc).value;
    var body := Body(doc.table.value.rows);
    assert page.treatments == TreatmentsFrom(body).value;
    TreatmentAt(body, j, i);
    ChunkLineBullet(page, HmoNames[j], i);
  }

  /** The last item that starts with an HMO's name sets its phone. */
  lemma {:induction false} PhoneOfLast(items: seq<string>, hmo: string, k: nat)
    requires k < |items| && StartsWith(Clean(items[k]), hmo)
    requires forall m :: k < m < |items| ==> !StartsWith(Clean(items[m]), hmo)
    ensures PhoneOf(items, hmo) == PhoneValue(Clean(items[k]))
  {
    if k < |items| - 1 {
      var init := items[..|items| - 1];
      assert forall m :: k <= m < |init| ==> init[m] == items[m];
      PhoneOfLast(init, hmo, k);
    }
  }

  /** An HMO no item starts with keeps the empty phone. */
  lemma {:induction false} PhoneOfNone(items: seq<string>, hmo: string)
    requires forall m :: 0 <= m < |items| ==> !StartsWith(Clean(items[m]), hmo)
    ensures PhoneOf(items, hmo) == ""
  {
    if items != [] {
      var init := items[..|items| - 1];
      assert forall m :: 0 <= m < |init| ==> init[m] == items[m];
      PhoneOfNone(init, hmo);
    }
  }

  /** The last item about an HMO that carries an href sets its URL. */
  lemma {:induction false} UrlOfLast(tags: seq<Tag>, hmo: string, k: nat)
    requires k < |tags| && SetsUrl(tags[k], hmo)
    requires forall m :: k < m < |tags| ==> !SetsUrl(tags[m], hmo)
    ensures UrlOf(tags, hmo) == tags[k].link.value.value
  {
    if k < |tags| - 1 {
      var init := tags[..|tags| - 1];
      assert forall m :: k <= m < |init| ==> init[m] == tags[m];
      UrlOfLast(init, hmo, k);
    }
  }

  /** A details item whose text starts with no HMO name changes nothing. */
  lemma DetailsSkipsOthers(items: seq<DetailsItem>, item: DetailsItem)
    requires ItemHmo(item).None?
    ensures UrlsOf(Items(items + [item])) == UrlsOf(Items(items))
  {
    TagsSnoc(items, item);
    UrlsSnoc(Tags(items), TagOf(item));
    TagsFitSnoc(Tags(items), TagOf(item));
    UrlStepUpdate(UrlsOfTags(Tags(items)), TagOf(item));
  }

  // ---------------------------------------------------------------------
  // The chunk text splits back into its lines
  // ---------------------------------------------------------------------

  predicate NoNewlines(lines: seq<string>) {
    forall k :: 0 <= k < |lines| ==> '\n' !in lines[k]
  }

  /** Every field that goes into a chunk line fits on one line. */
  predicate PageOneLine(page: Page)
    requires PageFits(page)
  {
    && '\n' !in page.topic
    && '\n' !in page.description
    && forall j :: 0 <= j < |HmoNames| ==>
      && NoNewlines(page.treatments[HmoNames[j]])
      && '\n' !in page.phones[HmoNames[j]]
      && '\n' !in page.urls[HmoNames[j]]
  }

  /** Every href of the details list fits on one line. */
  predicate LinksOneLine(section: Section<DetailsItem>) {
    section.Items? ==>
      forall k :: 0 <= k < |section.items| && section.items[k].link.Some? && section.items[k].link.value.Some? ==>
        '\n' !in section.items[k].link.value.value
  }

  lemma NoNewlinesAppend(a: seq<string>, b: seq<string>)
    requires NoNewlines(a) && NoNewlines(b)
    ensures NoNewlines(a + b)
  {
    assert forall k :: |a| <= k < |a + b| ==> (a + b)[k] == b[k - |a|];
  }

  lemma ChunkLinesOneLine(page: Page, j: nat)
    requires PageFits(page) && j < |HmoNames| && PageOneLine(page)
    ensures NoNewlines(ChunkLines(page, HmoNames[j]))
  {
    var hmo := HmoNames[j];
    assert '\n' !in Maccabi && '\n' !in Meuhedet && '\n' !in Clalit;
    assert '\n' !in hmo;
    var head := [page.topic + TopicSep + hmo, page.description, "", BenefitsHeading];
    var bullets := Bullets(page.treatments[hmo]);
    var phone := if page.phones[hmo] != "" then ["", PhonePrefix + page.phones[hmo]] else [];
    var url := if page.urls[hmo] != "" then [UrlPrefix + page.urls[hmo]] else [];
    assert NoNewlines(head);
    assert NoNewlines(bullets);
    assert NoNewlines(phone);
    assert NoNewlines(url);
    NoNewlinesAppend(head, bullets);
    NoNewlinesAppend(head + bullets, phone);
    NoNewlinesAppend(head + bullets + phone, url);
  }

  /**
   * When no field holds a newline, splitting a chunk's text on "\n" gives
   * back its lines: the header, the description, the blank line, the
   * benefits heading, the bullets, then the optional phone and URL lines.
   */
  lemma ChunkTextLines(page: Page, j: nat)
    requires PageFits(page) && j < |HmoNames| && PageOneLine(page)
    ensures Split(ChunkOf(page, HmoNames[j]).text, '\n') == ChunkLines(page, HmoNames[j])
  {
    ChunkLinesOneLine(page, j);
    SplitJoin(ChunkLines(page, HmoNames[j]), '\n');
  }

  lemma {:induction false} ParagraphsOneLine(nodes: seq<Node>)
    ensures NoNewlines(Paragraphs(nodes))
  {
    if nodes != [] {
      ParagraphsOneLine(nodes[1..]);
      if nodes[0].Paragraph? {
        CleanNoNewline(nodes[0].text);
        NoNewlinesAppend([Clean(nodes[0].text)], Paragraphs(nodes[1..]));
      }
    }
  }

  lemma PhoneValueOneLine(txt: string)
    requires '\n' !in txt
    ensures '\n' !in PhoneValue(txt)
  {
    var after := AfterColon(txt);
    if after.Some? {
      StripAvoids(after.value, '\n');
    }
  }

  lemma {:induction false} PhoneOfOneLine(items: seq<string>, hmo: string)
    ensures '\n' !in PhoneOf(items, hmo)
  {
    if items != [] {
      CleanNoNewline(items[|items| - 1]);
      PhoneValueOneLine(Clean(items[|items| - 1]));
      PhoneOfOneLine(items[..|items| - 1], hmo);
    }
  }

  lemma {:induction false} TagsLinks(items: seq<DetailsItem>)
    ensures forall k :: 0 <= k < |items| ==> Tags(items)[k].link == items[k].link
  {
    if items != [] {
      var init := items[..|items| - 1];
      TagsLinks(init);
      assert forall k :: 0 <= k < |init| ==> init[k] == items[k];
    }
  }

  lemma {:induction false} UrlOfOneLine(tags: seq<Tag>, hmo: string)
    requires forall k :: 0 <= k < |tags| && SetsUrl(tags[k], hmo) ==> '\n' !in tags[k].link.value.value
    ensures '\n' !in UrlOf(tags, hmo)
  {
    if tags != [] {
      var init := tags[..|tags| - 1];
      assert forall k :: 0 <= k < |init| ==> init[k] == tags[k];
      UrlOfOneLine(init, hmo);
    }
  }

  lemma TreatmentsOneLine(body: seq<seq<string>>, j: nat)
    requires TreatmentsFrom(body).Success? && j < |HmoNames|
    ensures NoNewlines(TreatmentsFrom(body).value[HmoNames[j]])
  {
    if body != [] {
      TreatmentAt(body, j, 0);
    }
    forall k | 0 <= k < |TreatmentsFrom(body).value[HmoNames[j]]|
      ensures '\n' !in TreatmentsFrom(body).value[HmoNames[j]][k]
    {
      TreatmentAt(body, j, k);
      CleanNoNewline(body[k][0]);
      CleanNoNewline(body[k][j + 1]);
    }
  }

  /** A page read from a document whose hrefs fit on one line fits on one line everywhere. */
  lemma ParsedPageOneLine(doc: Document)
    requires ParsePage(doc).Success? && LinksOneLine(doc.details)
    ensures PageOneLine(ParsePage(doc).value)
  {
    var page := ParsePage(doc).value;
    CleanNoNewline(doc.heading.value);
    ParagraphsOneLine(doc.table.value.before);
    JoinAvoids(Paragraphs(doc.table.value.before), " ", '\n');
    assert page.treatments == TreatmentsFrom(Body(doc.table.value.rows)).value;
    forall j | 0 <= j < |HmoNames|
      ensures NoNewlines(page.treatments[HmoNames[j]])
      ensures '\n' !in page.phones[HmoNames[j]]
      ensures '\n' !in page.urls[HmoNames[j]]
    {
      TreatmentsOneLine(Body(doc.table.value.rows), j);
      PagePhoneOneLine(doc.phones, HmoNames[j]);
      PageUrlOneLine(doc.details, HmoNames[j]);
    }
  }

  lemma PagePhoneOneLine(section: Section<string>, hmo: string)
    requires PhonesOf(section).Success? && hmo in HmoKeys
    ensures '\n' !in PhonesOf(section).value[hmo]
  {
    if section.Items? {
      PhoneOfOneLine(section.items, hmo);
    }
  }

  lemma PageUrlOneLine(section: Section<DetailsItem>, hmo: string)
    requires UrlsOf(section).Success? && hmo in HmoKeys && LinksOneLine(section)
    ensures '\n' !in UrlsOf(section).value[hmo]
  {
    if section.Items? {
      TagsLinks(section.items);
      UrlOfOneLine(Tags(section.items), hmo);
    }
  }
}
