/**
 `_build` of pdf.py: page streams in, a file out that a reader can follow from its last
 lines, laid out as sections 7.5.4 and 7.5.5 of ISO 32000-1 say. Text stands for bytes.
 */
module PdfFile {
  import opened Options
  import opened Digits

  /** The fixed pieces of text the file is put together from. */
  datatype Layout = Layout(head: string, obj: string, end: string, xref: string, free: string, used: string, trailer: string,
                           root: string, rootEnd: string, start: string, eof: string, newLine: string, catalog: string,
                           refEnd: string, pages: string, kids: string, kidsEnd: string, ref: string, page: string,
                           length: string, stream: string, endStream: string, fonts: (string, string, string))

  function Font(name: string): string {
    "<< /Type /Font /Subtype /Type1 /BaseFont /" + name + " /Encoding /WinAnsiEncoding >>"
  }

  function PdfLayout(): Layout {
    Layout(
      head := "%PDF-1.4\n%\U{E2}\U{E3}\U{CF}\U{D3}\n", obj := " 0 obj\n", end := "\nendobj\n",
      xref := "xref\n0 ", free := "0000000000 65535 f \n", used := " 00000 n \n",
      trailer := "trailer\n<< /Size ", root := " /Root ", rootEnd := " 0 R >>\n", start := "startxref\n", eof := "\n%%EOF\n",
      newLine := "\n", catalog := "<< /Type /Catalog /Pages ", refEnd := " 0 R >>",
      pages := "<< /Type /Pages /Count ", kids := " /Kids [", kidsEnd := "] >>", ref := " 0 R",
      page := "<< /Type /Page /Parent 2 0 R /MediaBox [0 0 842 595] /Resources << /Font << /F1 3 0 R /F2 4 0 R /F3 5 0 R >> >> /Contents ",
      length := "<< /Length ", stream := " >>\nstream\n", endStream := "\nendstream",
      fonts := (Font("Helvetica"), Font("Helvetica-Bold"), Font("Courier")))
  }

  predicate Bounds(t: string) {
    t != [] && !IsDigit(t[0])
  }

  /** What reading needs of the pieces: they end the numbers before them, and entries are twenty bytes. */
  predicate Legible(m: Layout) {
    && Bounds(m.obj) && Bounds(m.newLine) && Bounds(m.root) && Bounds(m.rootEnd) && Bounds(m.refEnd) && Bounds(m.kids)
    && Bounds(m.kidsEnd) && m.kidsEnd[0] != ' ' && Bounds(m.ref) && Bounds(m.stream) && Bounds(m.eof)
    && m.start != [] && !IsDigit(m.start[|m.start|-1])
    && |m.used| == 10 && |m.free| == 20
  }

  /** The word the trailer begins with cannot be taken for anything inside the table. */
  predicate TrailerStandsOut(m: Layout) {
    Bounds(m.trailer) && m.trailer[0] !in m.free && m.trailer[0] !in m.used
  }

  const FIRST_PAGE := 6
  const MAX_OFFSET := 10_000_000_000

  // ------------------------------------------------------------- the objects

  function PageNum(i: nat): nat {
    FIRST_PAGE + 2 * i
  }

  function Kids(m: Layout, lo: nat, n: nat): string
    decreases n - lo
  {
    if lo >= n then ""
    else if lo + 1 == n then Decimal(PageNum(lo)) + m.ref
    else Decimal(PageNum(lo)) + m.ref + " " + Kids(m, lo + 1, n)
  }

  function Catalog(m: Layout): string {
    m.catalog + Decimal(2) + m.refEnd
  }

  function Pages(m: Layout, n: nat): string {
    m.pages + Decimal(n) + m.kids + Kids(m, 0, n) + m.kidsEnd
  }

  function Page(m: Layout, i: nat): string {
    m.page + Decimal(PageNum(i) + 1) + m.refEnd
  }

  function Content(m: Layout, stream: string): string {
    m.length + Decimal(|stream|) + m.stream + stream + m.endStream
  }

  /** The bodies of the objects, number one first, for the first `i` streams of a file of `n`. */
  function Bodies(m: Layout, streams: seq<string>, i: nat, n: nat): (objs: seq<string>)
    requires i <= |streams|
    ensures |objs| == 5 + 2 * i
  {
    if i == 0 then [Catalog(m), Pages(m, n), m.fonts.0, m.fonts.1, m.fonts.2]
    else Bodies(m, streams, i - 1, n) + [Page(m, i - 1), Content(m, streams[i-1])]
  }

  function Objects(m: Layout, streams: seq<string>): (objs: seq<string>)
    ensures |objs| == 5 + 2 * |streams|
  {
    Bodies(m, streams, |streams|, |streams|)
  }

  // ---------------------------------------------------------------- the file

  function Obj(m: Layout, num: nat, body: string): string {
    Decimal(num) + m.obj + body + m.end
  }

  /** The file up to and with its first `k` objects. */
  function UpTo(m: Layout, objs: seq<string>, k: nat): string
    requires k <= |objs|
  {
    if k == 0 then m.head else UpTo(m, objs, k - 1) + Obj(m, k, objs[k-1])
  }

  /** Where object `num` begins. */
  function Offset(m: Layout, objs: seq<string>, num: nat): nat
    requires 1 <= num <= |objs|
  {
    |UpTo(m, objs, num - 1)|
  }

  function Entry(m: Layout, offset: nat): string {
    Padded(offset, 10) + m.used
  }

  function Entries(m: Layout, objs: seq<string>, k: nat): string
    requires k <= |objs|
  {
    if k == 0 then m.free else Entries(m, objs, k - 1) + Entry(m, Offset(m, objs, k))
  }

  function Xref(m: Layout, objs: seq<string>): string {
    m.xref + Decimal(|objs| + 1) + m.newLine + Entries(m, objs, |objs|)
  }

  function Trailer(m: Layout, objs: seq<string>, at: nat): string {
    m.trailer + Decimal(|objs| + 1) + m.root + Decimal(1) + m.rootEnd + m.start + Decimal(at) + m.eof
  }

  function File(m: Layout, objs: seq<string>): string {
    UpTo(m, objs, |objs|) + Xref(m, objs) + Trailer(m, objs, |UpTo(m, objs, |objs|)|)
  }

  /** The file of some page streams, and where its last object begins. */
  function Pdf(streams: seq<string>): string {
    var m := PdfLayout();
    File(m, Objects(m, streams))
  }

  function LastOffset(streams: seq<string>): nat {
    LastOffsetIn(PdfLayout(), streams)
  }

  function LastOffsetIn(m: Layout, streams: seq<string>): nat {
    Offset(m, Objects(m, streams), 5 + 2 * |streams|)
  }

  /** `_build`. */
  method Build(streams: seq<string>) returns (out: string)
    ensures out == Pdf(streams)
  {
    hide File, Objects, PdfLayout;
    out := Write(PdfLayout(), streams);
  }

  method Write(m: Layout, streams: seq<string>) returns (out: string)
    ensures out == File(m, Objects(m, streams))
  {
    hide Catalog, Pages, Page, Content, Obj, Entry, Xref, Trailer, Decimal;
    var n := |streams|;
    var objs := [Catalog(m), Pages(m, n), m.fonts.0, m.fonts.1, m.fonts.2];
    for i := 0 to n
      invariant objs == Bodies(m, streams, i, n)
    {
      objs := objs + [Page(m, i), Content(m, streams[i])];
    }
    out := m.head;
    var offsets: seq<nat> := [];
    for k := 0 to |objs|
      invariant out == UpTo(m, objs, k)
      invariant |offsets| == k && forall j :: 0 <= j < k ==> offsets[j] == Offset(m, objs, j + 1)
    {
      offsets := offsets + [|out|];
      out := out + Obj(m, k + 1, objs[k]);
    }
    var entries := WriteEntries(m, objs, offsets);
    out := Finish(m, objs, out, entries);
  }

  method WriteEntries(m: Layout, objs: seq<string>, offsets: seq<nat>) returns (entries: string)
    requires |offsets| == |objs| && forall j :: 0 <= j < |objs| ==> offsets[j] == Offset(m, objs, j + 1)
    ensures entries == Entries(m, objs, |objs|)
  {
    hide Entry, Offset;
    entries := m.free;
    for k := 0 to |offsets|
      invariant entries == Entries(m, objs, k)
    {
      entries := entries + Entry(m, offsets[k]);
    }
  }

  method Finish(m: Layout, objs: seq<string>, body: string, entries: string) returns (out: string)
    requires body == UpTo(m, objs, |objs|) && entries == Entries(m, objs, |objs|)
    ensures out == File(m, objs)
  {
    hide UpTo, Entries, Trailer, Decimal;
    var at := |body|;
    out := body + (m.xref + Decimal(|objs| + 1) + m.newLine + entries);
    out := out + Trailer(m, objs, at);
  }

  // -------------------------------------------------------------- the reader

  /** How many digits stand just before `end`. */
  function BackRun(f: string, end: nat): (n: nat)
    requires end <= |f|
    ensures n <= end && (forall i :: end - n <= i < end ==> IsDigit(f[i]))
    ensures n < end ==> !IsDigit(f[end-n-1])
  {
    if end > 0 && IsDigit(f[end-1]) then BackRun(f, end - 1) + 1 else 0
  }

  /** What `startxref` says, read from the end of the file. */
  function ReadStart(m: Layout, f: string): Option<nat> {
    if |f| < |m.eof| || !StandsAt(f, |f| - |m.eof|, m.eof) then None
    else
      var end := |f| - |m.eof|;
      var n := BackRun(f, end);
      if n == 0 || end - n < |m.start| || !StandsAt(f, end - n - |m.start|, m.start) then None
      else Some(Parse(f[end-n..end]))
  }

  /** The first entry of the cross-reference table at `at`, and how many there are. */
  function ReadTable(m: Layout, f: string, at: nat): Option<(nat, nat)> {
    if !StandsAt(f, at, m.xref) then None
    else
      var (count, next) := ReadNumber(f, at + |m.xref|);
      if StandsAt(f, next, m.newLine) then Some((next + |m.newLine|, count)) else None
  }

  /** The offset in entry `num`: entries are twenty bytes, the first ten the offset. */
  function ReadEntry(f: string, table: nat, num: nat): Option<nat> {
    var at := table + 20 * num;
    if at + 10 <= |f| && AllDigits(f[at..at+10]) then Some(Parse(f[at..at+10])) else None
  }

  /** Where the body of object `num` begins. */
  function ReadObject(m: Layout, f: string, table: nat, num: nat): Option<nat> {
    var offset := ReadEntry(f, table, num);
    if offset.Some? && StandsAt(f, offset.value, Decimal(num) + m.obj) then Some(offset.value + |Decimal(num) + m.obj|)
    else None
  }

  /** The number that follows `mark` at `at`, and where it ends. */
  function ReadAfter(f: string, at: nat, mark: string): Option<(nat, nat)> {
    if StandsAt(f, at, mark) then Some(ReadNumber(f, at + |mark|)) else None
  }

  /** The page references of a list, up to its end. */
  function ReadRefs(m: Layout, f: string, at: nat): seq<nat>
    decreases |f| - at
  {
    if at >= |f| || !IsDigit(f[at]) then []
    else
      var (num, next) := ReadNumber(f, at);
      if !StandsAt(f, next, m.ref) then []
      else
        var end := next + |m.ref|;
        [num] + (if end < |f| && f[end] == ' ' then ReadRefs(m, f, end + 1) else [])
  }

  /** The stream of a content object: as many bytes as its length says. */
  function ReadContent(m: Layout, f: string, at: nat): Option<string> {
    var length := ReadAfter(f, at, m.length);
    if length.None? || !StandsAt(f, length.value.1, m.stream) then None
    else
      var from := length.value.1 + |m.stream|;
      if from + length.value.0 <= |f| then Some(f[from..from+length.value.0]) else None
  }

  function ReadPage(m: Layout, f: string, table: nat, num: nat): Option<string> {
    var page := ReadObject(m, f, table, num);
    if page.None? then None
    else
      var content := ReadAfter(f, page.value, m.page);
      if content.None? then None
      else
        var body := ReadObject(m, f, table, content.value.0);
        if body.None? then None else ReadContent(m, f, body.value)
  }

  function ReadPages(m: Layout, f: string, table: nat, nums: seq<nat>): Option<seq<string>> {
    if nums == [] then Some([])
    else
      var before := ReadPages(m, f, table, nums[..|nums|-1]);
      var last := ReadPage(m, f, table, nums[|nums|-1]);
      if before.Some? && last.Some? then Some(before.value + [last.value]) else None
  }

  /** From the catalog to the pages it leads to. */
  function ReadFrom(m: Layout, f: string, table: nat, root: nat): Option<seq<string>> {
    var catalog := ReadObject(m, f, table, root);
    if catalog.None? then None
    else
      var pages := ReadAfter(f, catalog.value, m.catalog);
      if pages.None? then None
      else
        var list := ReadObject(m, f, table, pages.value.0);
        if list.None? then None
        else
          var count := ReadAfter(f, list.value, m.pages);
          if count.None? || !StandsAt(f, count.value.1, m.kids) then None
          else
            var kids := ReadRefs(m, f, count.value.1 + |m.kids|);
            if |kids| == count.value.0 then ReadPages(m, f, table, kids) else None
  }

  /** The object the trailer at `at` names as the root. */
  function ReadRoot(m: Layout, f: string, at: nat): Option<nat> {
    var size := ReadAfter(f, at, m.trailer);
    if size.None? then None
    else
      var root := ReadAfter(f, size.value.1, m.root);
      if root.None? then None else Some(root.value.0)
  }

  /** The page streams of a file: last lines, table, trailer, catalog, pages, contents. */
  function Read(m: Layout, f: string): Option<seq<string>> {
    var start := ReadStart(m, f);
    if start.None? then None
    else
      var table := ReadTable(m, f, start.value);
      if table.None? then None
      else
        var (base, count) := table.value;
        var root := ReadRoot(m, f, base + 20 * count);
        if root.None? then None else ReadFrom(m, f, base, root.value)
  }
}
