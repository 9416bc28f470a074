/** What else a built file says: its fonts, its pages' size and parent, and its trailer's count. */
module PdfDetails {
  import opened Options
  import opened Digits
  import opened PdfFile
  import opened PdfLaws

  /** The objects before the pages' own: the catalog, the list of pages, and three fonts. */
  lemma {:induction false} FontBodies(m: Layout, streams: seq<string>, k: nat, n: nat)
    requires k <= |streams|
    ensures Bodies(m, streams, k, n)[2] == m.fonts.0 && Bodies(m, streams, k, n)[3] == m.fonts.1 && Bodies(m, streams, k, n)[4] == m.fonts.2
  {
    hide Catalog, Pages, Page, Content;
    if k > 0 { FontBodies(m, streams, k - 1, n); }
  }

  /** Object three, four or five is the font of that place. */
  lemma FontStands(m: Layout, streams: seq<string>, k: nat) returns (at: nat)
    requires Legible(m) && Fits(m, Objects(m, streams), |Objects(m, streams)|) && k < 3
    ensures ReadObject(m, File(m, Objects(m, streams)), TableAt(m, Objects(m, streams)), 3 + k) == Some(at)
    ensures StandsAt(File(m, Objects(m, streams)), at, if k == 0 then m.fonts.0 else if k == 1 then m.fonts.1 else m.fonts.2)
  {
    hide ReadObject, TableAt, File, StandsAt, Bodies, Fits, Legible;
    var objs := Objects(m, streams);
    at := ObjectRead(m, objs, 3 + k);
    FontBodies(m, streams, |streams|, |streams|);
    StandsJoin(File(m, objs), at, objs[2+k], m.end);
  }

  /** Every page object begins with the words all pages begin with. */
  lemma PageStands(m: Layout, streams: seq<string>, i: nat) returns (at: nat)
    requires Legible(m) && Fits(m, Objects(m, streams), |Objects(m, streams)|) && i < |streams|
    ensures ReadObject(m, File(m, Objects(m, streams)), TableAt(m, Objects(m, streams)), 6 + 2 * i) == Some(at)
    ensures StandsAt(File(m, Objects(m, streams)), at, m.page)
  {
    hide ReadObject, TableAt, File, StandsAt, Bodies, Fits, Legible, Decimal;
    var objs := Objects(m, streams);
    at := ObjectRead(m, objs, 6 + 2 * i);
    BodyIs(m, streams, i, |streams|, |streams|);
    var rest := Decimal(PageNum(i) + 1) + (m.refEnd + m.end);
    assert objs[5 + 2 * i] + m.end == m.page + rest;
    StandsJoin(File(m, objs), at, m.page, rest);
  }

  /** The table starts with the free entry, and the trailer gives the number of entries as its size. */
  lemma SizeRead(m: Layout, objs: seq<string>)
    requires Legible(m) && Fits(m, objs, |objs|)
    ensures StandsAt(File(m, objs), TableAt(m, objs), m.free)
    ensures ReadAfter(File(m, objs), TableAt(m, objs) + 20 * (|objs| + 1), m.trailer).Some?
    ensures ReadAfter(File(m, objs), TableAt(m, objs) + 20 * (|objs| + 1), m.trailer).value.0 == |objs| + 1
    ensures StandsAt(File(m, objs), 0, m.head)
  {
    hide UpTo, Entries, Decimal, File, ReadAfter, StandsAt, TableAt, Fits;
    FileParts(m, objs);
    EntryStands(m, objs, 0, |objs|);
    var f, at := File(m, objs), TableAt(m, objs) + 20 * (|objs| + 1);
    var tail := m.start + Decimal(|UpTo(m, objs, |objs|)|) + m.eof;
    var rest := m.root + Decimal(1) + (m.rootEnd + tail);
    assert Trailer(m, objs, |UpTo(m, objs, |objs|)|) == m.trailer + Decimal(|objs| + 1) + rest;
    assert rest[0] == m.root[0];
    FieldRead(f, at, m.trailer, |objs| + 1, rest);
    FreeStands(m, objs, |objs|);
    Within(f, TableAt(m, objs), Entries(m, objs, |objs|), 0, m.free);
    HeadStands(m, objs, |objs|);
    FileStarts(m, objs, 0, m.head);
  }

  lemma {:induction false} FreeStands(m: Layout, objs: seq<string>, k: nat)
    requires k <= |objs|
    ensures StandsAt(Entries(m, objs, k), 0, m.free)
  {
    hide StandsAt, Entry, Offset;
    if k > 0 {
      FreeStands(m, objs, k - 1);
      StandsMore(Entries(m, objs, k - 1), Entry(m, Offset(m, objs, k)), 0, m.free);
    } else {
      StandsAfter("", m.free, "");
      assert "" + m.free + "" == m.free;
    }
  }

  lemma {:induction false} HeadStands(m: Layout, objs: seq<string>, k: nat)
    requires k <= |objs|
    ensures StandsAt(UpTo(m, objs, k), 0, m.head)
  {
    hide StandsAt, Obj;
    if k > 0 {
      HeadStands(m, objs, k - 1);
      StandsMore(UpTo(m, objs, k - 1), Obj(m, k, objs[k-1]), 0, m.head);
    } else {
      StandsAfter("", m.head, "");
      assert "" + m.head + "" == m.head;
    }
  }

  /** Object `num` of the file, read as `_build` writes it, begins with `text`. */
  ghost predicate Says(streams: seq<string>, num: nat, text: string) {
    exists at :: ReadObject(PdfLayout(), Pdf(streams), TableAt(PdfLayout(), Objects(PdfLayout(), streams)), num) == Some(at)
                 && StandsAt(Pdf(streams), at, text)
  }

  function FontText(name: string): string {
    "<< /Type /Font /Subtype /Type1 /BaseFont /" + name + " /Encoding /WinAnsiEncoding >>"
  }

  const PAGE_TEXT := "<< /Type /Page /Parent 2 0 R /MediaBox [0 0 842 595] /Resources << /Font << /F1 3 0 R /F2 4 0 R /F3 5 0 R >> >> /Contents "

  lemma Pieces()
    ensures PdfLayout().page == PAGE_TEXT
    ensures PdfLayout().fonts == (FontText("Helvetica"), FontText("Helvetica-Bold"), FontText("Courier"))
  {}

  /**
   In a built file every page is a child of the list of pages, of that size, and names as its
   fonts F1, F2 and F3 objects three, four and five, which are plain, bold and of even width.
   */
  lemma FontsAndPages(streams: seq<string>, i: nat)
    requires LastOffset(streams) < MAX_OFFSET && i < |streams|
    ensures Says(streams, 6 + 2 * i, PAGE_TEXT)
    ensures Says(streams, 3, FontText("Helvetica")) && Says(streams, 4, FontText("Helvetica-Bold")) && Says(streams, 5, FontText("Courier"))
  {
    BuiltIs(streams);
    hide ReadObject, TableAt, Pdf, File, LastOffset, StandsAt, Objects, Legible, Fits, PdfLayout, FontText;
    PdfLegible();
    Pieces();
    LastFits(PdfLayout(), streams);
    var page := PageStands(PdfLayout(), streams, i);
    var plain := FontStands(PdfLayout(), streams, 0);
    var bold := FontStands(PdfLayout(), streams, 1);
    var even := FontStands(PdfLayout(), streams, 2);
  }
}
