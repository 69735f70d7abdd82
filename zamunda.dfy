/**
 * The Zamunda search client: query normalisation, the search URL, the
 * extraction of result records from the parsed results table, and the
 * magnet-link lookup on a detail page.
 *
 * Two revisions of the client exist. `Root` keeps only anchors whose href
 * starts with "/magnetlink" and records no size; `Package` keeps every
 * anchor of the title cell and also records the size column. One extractor,
 * parameterised by the revision, models both.
 *
 * The network is the parameter `web`: it maps a URL to the HTTP status and
 * the parsed document that a GET of that URL yields. HTML parsing itself is
 * not modelled: a document is given by what the client looks up in it.
 */
module Zamunda {
  import opened Wrappers

  const Base: string := "https://zamunda.net"
  const SearchPath: string := "/bananas?search="
  const SearchFlags: string := "&gotonext=1&incldead=&field=name&sort=9&type=desc"
  const MagnetPrefix: string := "magnet:?"
  const MagnetLinkPrefix: string := "/magnetlink"
  const BgAudioSuffix: string := "bgaudio.png"

  // Python's str.startswith and str.endswith
  predicate StartsWith(s: string, prefix: string) {
    |prefix| <= |s| && s[..|prefix|] == prefix
  }

  predicate EndsWith(s: string, suffix: string) {
    |suffix| <= |s| && s[|s| - |suffix|..] == suffix
  }

  /** An `<a>` element; `href` is None when the attribute is missing. */
  datatype Anchor = Anchor(href: Option<string>)

  /** An `<img>` element; `src` is None when the attribute is missing. */
  datatype Image = Image(src: Option<string>)

  /**
   * A `<td>`: its whole text, the text of the `<b>` inside its first `<a>`
   * (None when either is missing), the anchors inside its first `<div>`
   * (None when it has no div) and every image it contains.
   */
  datatype Cell = Cell(text: string, bold: Option<string>, div: Option<seq<Anchor>>, images: seq<Image>)

  datatype Row = Row(cells: seq<Cell>)

  /** A parsed page: the `zbtable` table's rows, if there is one, and all anchors. */
  datatype Document = Document(table: Option<seq<Row>>, anchors: seq<Anchor>)

  datatype Response = Response(status: int, doc: Document)

  datatype Revision = Root | Package

  /** One search hit; `size` is None in the `Root` revision, whose records have no size. */
  datatype Record = Record(name: string, magnetlink: Option<string>, seeders: string, bgAudio: bool, size: Option<string>)

  // ---------------------------------------------------------------------
  // Query and URL

  /** `ss.replace(" ", "+")` */
  function Normalise(s: string): (r: string)
    ensures |r| == |s|
    ensures forall i :: 0 <= i < |s| ==> r[i] == (if s[i] == ' ' then '+' else s[i])
    ensures ' ' !in r
  {
    if s == [] then [] else [if s[0] == ' ' then '+' else s[0]] + Normalise(s[1..])
  }

  function SearchUrl(ss: string): string {
    Base + SearchPath + Normalise(ss) + SearchFlags
  }

  /** The search URL pins down the normalised query, and nothing more. */
  lemma UrlDeterminesQuery(a: string, b: string)
    ensures SearchUrl(a) == SearchUrl(b) <==> Normalise(a) == Normalise(b)
  {
    if SearchUrl(a) == SearchUrl(b) {
      var p := Base + SearchPath;
      var u := SearchUrl(a);
      var na, nb := Normalise(a), Normalise(b);
      assert u == p + na + SearchFlags;
      assert u == p + nb + SearchFlags;
      assert |na| == |nb|;
      assert na == u[|p|..|p| + |na|];
      assert nb == u[|p|..|p| + |nb|];
    }
  }

  /** A space and a plus sign in the query send the same request. */
  lemma SpaceAndPlusSearchAlike(x: string, y: string)
    ensures SearchUrl(x + " " + y) == SearchUrl(x + "+" + y)
  {
  }

  // ---------------------------------------------------------------------
  // Detail page: the magnet link

  predicate IsMagnetAnchor(a: Anchor) {
    a.href.Some? && StartsWith(a.href.value, MagnetPrefix)
  }

  /** The href of the first anchor whose href starts with "magnet:?". */
  function FirstMagnet(anchors: seq<Anchor>): (r: Option<string>)
    ensures r.None? <==> forall i :: 0 <= i < |anchors| ==> !IsMagnetAnchor(anchors[i])
    ensures r.Some? ==> StartsWith(r.value, MagnetPrefix)
    ensures r.Some? ==> exists i :: 0 <= i < |anchors| && anchors[i].href == r
                          && forall j :: 0 <= j < i ==> !IsMagnetAnchor(anchors[j])
  {
    if anchors == [] then None
    else if IsMagnetAnchor(anchors[0]) then anchors[0].href
    else
      var r := FirstMagnet(anchors[1..]);
      assert forall i :: 1 <= i < |anchors| ==> anchors[i] == anchors[1..][i - 1];
      r
  }

  /** What `get_download_link(href)` returns. */
  function DownloadLink(href: string, web: string -> Response): Option<string> {
    var response := web(Base + href);
    if response.status != 200 then None else FirstMagnet(response.doc.anchors)
  }

  method GetDownloadLink(href: string, web: string -> Response) returns (link: Option<string>)
    ensures link == DownloadLink(href, web)
    ensures web(Base + href).status != 200 ==> link == None
    ensures link.Some? ==> StartsWith(link.value, MagnetPrefix)
  {
    var url := Base + href;
    var response := web(url);
    if response.status != 200 {
      return None;
    }
    var anchors := response.doc.anchors;
    for i := 0 to |anchors|
      invariant forall j :: 0 <= j < i ==> !IsMagnetAnchor(anchors[j])
    {
      var content := anchors[i].href;
      if content.Some? && StartsWith(content.value, MagnetPrefix) {
        return content;
      }
    }
    return None;
  }

  // ---------------------------------------------------------------------
  // Rows of the results table

  /** `tds[1]` and `tds[-2]` are read in both revisions, `tds[-4]` only in `Package`. */
  function MinCells(rev: Revision): nat {
    if rev == Package then 4 else 2
  }

  /**
   * The shape a data row must have for the client not to raise: enough
   * cells, a bold title link and a div in cell 1, an href on every anchor of
   * that div and a src on every image of cell 1.
   */
  predicate WellFormedRow(rev: Revision, row: Row) {
    && |row.cells| >= MinCells(rev)
    && row.cells[1].bold.Some?
    && row.cells[1].div.Some?
    && (forall a :: a in row.cells[1].div.value ==> a.href.Some?)
    && (forall img :: img in row.cells[1].images ==> img.src.Some?)
  }

  predicate WellFormedRows(rev: Revision, rows: seq<Row>) {
    forall i :: 0 <= i < |rows| ==> WellFormedRow(rev, rows[i])
  }

  function RowName(rev: Revision, row: Row): string
    requires WellFormedRow(rev, row)
  {
    row.cells[1].bold.value
  }

  function RowSeeders(rev: Revision, row: Row): string
    requires WellFormedRow(rev, row)
  {
    row.cells[|row.cells| - 2].text
  }

  function RowSize(rev: Revision, row: Row): Option<string>
    requires WellFormedRow(rev, row)
  {
    if rev == Package then Some(row.cells[|row.cells| - 4].text) else None
  }

  /** Whether some image of the title cell has a src ending in "bgaudio.png". */
  function HasBgAudio(images: seq<Image>): (r: bool)
    requires forall img :: img in images ==> img.src.Some?
    ensures r <==> exists i :: 0 <= i < |images| && EndsWith(images[i].src.value, BgAudioSuffix)
  {
    if images == [] then false
    else
      var rest := HasBgAudio(images[1..]);
      assert forall i :: 1 <= i < |images| ==> images[i] == images[1..][i - 1];
      EndsWith(images[0].src.value, BgAudioSuffix) || rest
  }

  function RowBgAudio(rev: Revision, row: Row): bool
    requires WellFormedRow(rev, row)
  {
    HasBgAudio(row.cells[1].images)
  }

  /** The hrefs of the anchors in the title cell's div, in document order. */
  function Hrefs(rev: Revision, row: Row): seq<string>
    requires WellFormedRow(rev, row)
  {
    var anchors := row.cells[1].div.value;
    seq(|anchors|, j requires 0 <= j < |anchors| => anchors[j].href.value)
  }

  /** The revision's href filter. */
  predicate Keeps(rev: Revision, href: string) {
    rev == Package || StartsWith(href, MagnetLinkPrefix)
  }

  /** The hrefs a revision turns into records, in order. */
  function Kept(rev: Revision, hrefs: seq<string>): (r: seq<string>)
    ensures |r| <= |hrefs|
    ensures rev == Package ==> r == hrefs
    ensures forall h :: h in r <==> h in hrefs && Keeps(rev, h)
  {
    if hrefs == [] then []
    else
      var rest := Kept(rev, hrefs[1..]);
      assert forall h :: h in hrefs <==> h == hrefs[0] || h in hrefs[1..];
      (if Keeps(rev, hrefs[0]) then [hrefs[0]] else []) + rest
  }

  /** The "magnetlink" field: the detail page's magnet link, or the page URL. */
  function Link(href: string, provideMagnet: bool, web: string -> Response): Option<string> {
    if provideMagnet then DownloadLink(href, web) else Some(Base + href)
  }

  function MakeRecord(rev: Revision, row: Row, href: string, provideMagnet: bool, web: string -> Response): Record
    requires WellFormedRow(rev, row)
  {
    Record(RowName(rev, row), Link(href, provideMagnet, web), RowSeeders(rev, row), RowBgAudio(rev, row), RowSize(rev, row))
  }

  /** What the inner loop appends for the hrefs `hs` of `row`. */
  function AnchorRecords(rev: Revision, row: Row, hs: seq<string>, provideMagnet: bool, web: string -> Response): seq<Record>
    requires WellFormedRow(rev, row)
  {
    if hs == [] then []
    else
      var last := hs[|hs| - 1];
      AnchorRecords(rev, row, hs[..|hs| - 1], provideMagnet, web)
        + (if Keeps(rev, last) then [MakeRecord(rev, row, last, provideMagnet, web)] else [])
  }

  function RowRecords(rev: Revision, row: Row, provideMagnet: bool, web: string -> Response): seq<Record>
    requires WellFormedRow(rev, row)
  {
    AnchorRecords(rev, row, Hrefs(rev, row), provideMagnet, web)
  }

  /** The concatenation of a sequence of sequences. */
  function Flatten<T>(ss: seq<seq<T>>): seq<T> {
    if ss == [] then [] else Flatten(ss[..|ss| - 1]) + ss[|ss| - 1]
  }

  lemma {:induction false} FlattenAppend<T>(a: seq<seq<T>>, b: seq<seq<T>>)
    ensures Flatten(a + b) == Flatten(a) + Flatten(b)
  {
    if b != [] {
      assert (a + b)[..|a + b| - 1] == a + b[..|b| - 1];
      FlattenAppend(a, b[..|b| - 1]);
    } else {
      assert a + b == a;
    }
  }

  /** Each element of a concatenation is an element of one of its parts. */
  lemma {:induction false} FlattenIndex<T>(ss: seq<seq<T>>, k: nat)
    requires k < |Flatten(ss)|
    ensures exists i, j :: 0 <= i < |ss| && 0 <= j < |ss[i]| && Flatten(ss)[k] == ss[i][j]
  {
    var init := ss[..|ss| - 1];
    if k < |Flatten(init)| {
      FlattenIndex(init, k);
      var i, j :| 0 <= i < |init| && 0 <= j < |init[i]| && Flatten(init)[k] == init[i][j];
      assert ss[i] == init[i];
    } else {
      var i := |ss| - 1;
      assert Flatten(ss)[k] == ss[i][k - |Flatten(init)|];
    }
  }

  /** The records of each row, row by row. */
  function RowsRecords(rev: Revision, rows: seq<Row>, provideMagnet: bool, web: string -> Response): seq<seq<Record>>
    requires WellFormedRows(rev, rows)
  {
    seq(|rows|, i requires 0 <= i < |rows| => RowRecords(rev, rows[i], provideMagnet, web))
  }

  /** What the outer loop appends for the data rows `rows`. */
  function TableRecords(rev: Revision, rows: seq<Row>, provideMagnet: bool, web: string -> Response): seq<Record>
    requires WellFormedRows(rev, rows)
  {
    Flatten(RowsRecords(rev, rows, provideMagnet, web))
  }

  /** `trs[1:]`: every row but the header. */
  function DataRows(trs: seq<Row>): seq<Row> {
    if trs == [] then [] else trs[1..]
  }

  /** The page does not make the client raise. */
  predicate WellFormedPage(rev: Revision, response: Response) {
    response.status == 200 && response.doc.table.Some? ==>
      WellFormedRows(rev, DataRows(response.doc.table.value))
  }

  function PageRecords(rev: Revision, response: Response, provideMagnet: bool, web: string -> Response): seq<Record>
    requires WellFormedPage(rev, response)
  {
    if response.status != 200 then []
    else match response.doc.table
      case None => []
      case Some(trs) => TableRecords(rev, DataRows(trs), provideMagnet, web)
  }

  /** What `Zamunda.search(ss, user, password, provide_magnet)` returns. */
  function SearchResults(rev: Revision, ss: string, provideMagnet: bool, web: string -> Response): seq<Record>
    requires WellFormedPage(rev, web(SearchUrl(ss)))
  {
    PageRecords(rev, web(SearchUrl(ss)), provideMagnet, web)
  }

  lemma AnchorRecordsStep(rev: Revision, row: Row, hs: seq<string>, j: nat, provideMagnet: bool, web: string -> Response)
    requires WellFormedRow(rev, row) && j < |hs|
    ensures AnchorRecords(rev, row, hs[..j + 1], provideMagnet, web)
         == AnchorRecords(rev, row, hs[..j], provideMagnet, web)
            + (if Keeps(rev, hs[j]) then [MakeRecord(rev, row, hs[j], provideMagnet, web)] else [])
  {
    assert hs[..j + 1][..j] == hs[..j];
  }

  lemma TableRecordsStep(rev: Revision, rows: seq<Row>, i: nat, provideMagnet: bool, web: string -> Response)
    requires WellFormedRows(rev, rows) && i < |rows|
    ensures WellFormedRows(rev, rows[..i])
    ensures TableRecords(rev, rows[..i + 1], provideMagnet, web)
         == TableRecords(rev, rows[..i], provideMagnet, web) + RowRecords(rev, rows[i], provideMagnet, web)
  {
    var all := RowsRecords(rev, rows[..i + 1], provideMagnet, web);
    assert all[..i] == RowsRecords(rev, rows[..i], provideMagnet, web);
  }

  // ---------------------------------------------------------------------
  // The search itself

  method Search(rev: Revision, ss: string, provideMagnet: bool, web: string -> Response) returns (data: seq<Record>)
    requires WellFormedPage(rev, web(SearchUrl(ss)))
    ensures data == SearchResults(rev, ss, provideMagnet, web)
    ensures web(SearchUrl(ss)).status != 200 ==> data == []
    ensures web(SearchUrl(ss)).doc.table.None? ==> data == []
  {
    var url := SearchUrl(ss);
    var response := web(url);
    if response.status != 200 {
      return [];
    }
    if response.doc.table.None? {
      return [];
    }
    var trs := DataRows(response.doc.table.value);
    data := ExtractRecords(rev, trs, provideMagnet, web);
  }

  /** The outer loop of the search: the records of every data row, in row order. */
  method ExtractRecords(rev: Revision, trs: seq<Row>, provideMagnet: bool, web: string -> Response) returns (data: seq<Record>)
    requires WellFormedRows(rev, trs)
    ensures data == TableRecords(rev, trs, provideMagnet, web)
  {
    data := [];
    for i := 0 to |trs|
      invariant data == TableRecords(rev, trs[..i], provideMagnet, web)
    {
      var rowData := ExtractRow(rev, trs[i], provideMagnet, web);
      data := data + rowData;
      TableRecordsStep(rev, trs, i, provideMagnet, web);
    }
    assert trs[..|trs|] == trs;
  }

  /** The inner loop of the search: one record per kept href of `tr`, in anchor order. */
  method ExtractRow(rev: Revision, tr: Row, provideMagnet: bool, web: string -> Response) returns (data: seq<Record>)
    requires WellFormedRow(rev, tr)
    ensures data == RowRecords(rev, tr, provideMagnet, web)
  {
    var tds := tr.cells;
    var name := tds[1].bold.value;
    var hrefs := tds[1].div.value;
    var seeds := tds[|tds| - 2].text;
    var size := if rev == Package then Some(tds[|tds| - 4].text) else None;
    var audio := HasBgAudio(tds[1].images);
    ghost var hs := Hrefs(rev, tr);
    data := [];
    for j := 0 to |hrefs|
      invariant data == AnchorRecords(rev, tr, hs[..j], provideMagnet, web)
    {
      var href := hrefs[j].href.value;
      AnchorRecordsStep(rev, tr, hs, j, provideMagnet, web);
      if Keeps(rev, href) {
        var link;
        if provideMagnet {
          link := GetDownloadLink(href, web);
        } else {
          link := Some(Base + href);
        }
        data := data + [Record(name, link, seeds, audio, size)];
      }
    }
    assert hs[..|hrefs|] == hs;
  }

  // ---------------------------------------------------------------------
  // Properties of the extraction

  lemma {:induction false} KeptSnoc(rev: Revision, hs: seq<string>, h: string)
    ensures Kept(rev, hs + [h]) == Kept(rev, hs) + (if Keeps(rev, h) then [h] else [])
  {
    if hs != [] {
      assert (hs + [h])[1..] == hs[1..] + [h];
      KeptSnoc(rev, hs[1..], h);
    }
  }

  /** Within a row, one record per kept href, in anchor order. */
  lemma {:induction false} AnchorRecordsFollowKept(rev: Revision, row: Row, hs: seq<string>, provideMagnet: bool, web: string -> Response)
    requires WellFormedRow(rev, row)
    ensures |AnchorRecords(rev, row, hs, provideMagnet, web)| == |Kept(rev, hs)|
    ensures forall j :: 0 <= j < |Kept(rev, hs)| ==>
              AnchorRecords(rev, row, hs, provideMagnet, web)[j] == MakeRecord(rev, row, Kept(rev, hs)[j], provideMagnet, web)
  {
    if hs != [] {
      var init, last := hs[..|hs| - 1], hs[|hs| - 1];
      assert hs == init + [last];
      AnchorRecordsFollowKept(rev, row, init, provideMagnet, web);
      KeptSnoc(rev, init, last);
    }
  }

  /** Records of earlier rows come before records of later rows. */
  lemma TableRecordsAppend(rev: Revision, a: seq<Row>, b: seq<Row>, provideMagnet: bool, web: string -> Response)
    requires WellFormedRows(rev, a)
    requires WellFormedRows(rev, b)
    ensures TableRecords(rev, a + b, provideMagnet, web)
         == TableRecords(rev, a, provideMagnet, web) + TableRecords(rev, b, provideMagnet, web)
  {
    var ra, rb := RowsRecords(rev, a, provideMagnet, web), RowsRecords(rev, b, provideMagnet, web);
    assert RowsRecords(rev, a + b, provideMagnet, web) == ra + rb;
    FlattenAppend(ra, rb);
  }

  /** The number of kept hrefs over all rows. */
  function KeptCount(rev: Revision, rows: seq<Row>): nat
    requires WellFormedRows(rev, rows)
  {
    if rows == [] then 0 else |Kept(rev, Hrefs(rev, rows[0]))| + KeptCount(rev, rows[1..])
  }

  /** One record per kept href of every data row. */
  lemma {:induction false} RecordCount(rev: Revision, rows: seq<Row>, provideMagnet: bool, web: string -> Response)
    requires WellFormedRows(rev, rows)
    ensures |TableRecords(rev, rows, provideMagnet, web)| == KeptCount(rev, rows)
  {
    if rows != [] {
      assert rows == [rows[0]] + rows[1..];
      TableRecordsAppend(rev, [rows[0]], rows[1..], provideMagnet, web);
      var single := RowsRecords(rev, [rows[0]], provideMagnet, web);
      assert single[..0] == [];
      assert Flatten(single) == Flatten(single[..0]) + single[0];
      assert TableRecords(rev, [rows[0]], provideMagnet, web) == RowRecords(rev, rows[0], provideMagnet, web);
      AnchorRecordsFollowKept(rev, rows[0], Hrefs(rev, rows[0]), provideMagnet, web);
      RecordCount(rev, rows[1..], provideMagnet, web);
    }
  }

  /** In the `Package` revision every anchor of the title cell's div yields a record. */
  lemma PackageRecordCount(rows: seq<Row>, provideMagnet: bool, web: string -> Response)
    requires WellFormedRows(Package, rows)
    ensures forall i :: 0 <= i < |rows| ==> |RowRecords(Package, rows[i], provideMagnet, web)| == |rows[i].cells[1].div.value|
  {
    forall i | 0 <= i < |rows|
      ensures |RowRecords(Package, rows[i], provideMagnet, web)| == |rows[i].cells[1].div.value|
    {
      AnchorRecordsFollowKept(Package, rows[i], Hrefs(Package, rows[i]), provideMagnet, web);
    }
  }

  /**
   * `rec` is the record the client builds from `row` and its href `h`: the
   * href passes the revision's filter, and the record carries the row's
   * name, seeders, size and bg-audio flag and the link made from `h`.
   */
  predicate RecordFrom(rev: Revision, row: Row, h: string, rec: Record, provideMagnet: bool, web: string -> Response)
    requires WellFormedRow(rev, row)
  {
    && h in Hrefs(rev, row)
    && Keeps(rev, h)
    && rec.name == RowName(rev, row)
    && rec.seeders == RowSeeders(rev, row)
    && rec.size == RowSize(rev, row)
    && rec.bgAudio == RowBgAudio(rev, row)
    && rec.magnetlink == Link(h, provideMagnet, web)
  }

  /** Every record comes from one data row and one kept href of that row. */
  lemma RecordOrigin(rev: Revision, rows: seq<Row>, provideMagnet: bool, web: string -> Response, k: nat)
    requires WellFormedRows(rev, rows)
    requires k < |TableRecords(rev, rows, provideMagnet, web)|
    ensures exists i, h :: 0 <= i < |rows|
              && RecordFrom(rev, rows[i], h, TableRecords(rev, rows, provideMagnet, web)[k], provideMagnet, web)
  {
    var ss := RowsRecords(rev, rows, provideMagnet, web);
    FlattenIndex(ss, k);
    var i, j :| 0 <= i < |ss| && 0 <= j < |ss[i]| && Flatten(ss)[k] == ss[i][j];
    var hs := Hrefs(rev, rows[i]);
    AnchorRecordsFollowKept(rev, rows[i], hs, provideMagnet, web);
    var h := Kept(rev, hs)[j];
    assert h in Kept(rev, hs);
    assert RecordFrom(rev, rows[i], h, ss[i][j], provideMagnet, web);
  }

  /** In the `Root` revision, without magnet lookup, every record links a "/magnetlink" page. */
  lemma RootRecordsLinkMagnetPages(rows: seq<Row>, web: string -> Response, k: nat)
    requires WellFormedRows(Root, rows)
    requires k < |TableRecords(Root, rows, false, web)|
    ensures TableRecords(Root, rows, false, web)[k].magnetlink.Some?
    ensures StartsWith(TableRecords(Root, rows, false, web)[k].magnetlink.value, Base + MagnetLinkPrefix)
  {
    RecordOrigin(Root, rows, false, web, k);
    var i, h :| 0 <= i < |rows| && RecordFrom(Root, rows[i], h, TableRecords(Root, rows, false, web)[k], false, web);
    var link := Base + h;
    assert link[..|Base + MagnetLinkPrefix|] == Base + h[..|MagnetLinkPrefix|];
  }

  /** The header row's contents never reach the output. */
  lemma HeaderRowIgnored(rev: Revision, h1: Row, h2: Row, rows: seq<Row>, a1: seq<Anchor>, a2: seq<Anchor>,
                         provideMagnet: bool, web: string -> Response)
    requires WellFormedRows(rev, rows)
    ensures WellFormedPage(rev, Response(200, Document(Some([h1] + rows), a1)))
    ensures PageRecords(rev, Response(200, Document(Some([h1] + rows), a1)), provideMagnet, web)
         == PageRecords(rev, Response(200, Document(Some([h2] + rows), a2)), provideMagnet, web)
         == TableRecords(rev, rows, provideMagnet, web)
  {
  }
}
