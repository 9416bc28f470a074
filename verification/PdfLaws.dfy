/** A reader that follows the last lines of a built file finds every page stream again. */
module PdfLaws {
  import opened Options
  import opened Digits
  import opened PdfFile

  // ------------------------------------------------------------ where things stand

  lemma StandsMore(f: string, g: string, at: nat, t: string)
    requires StandsAt(f, at, t)
    ensures StandsAt(f + g, at, t)
  {
    assert (f + g)[at..at+|t|] == f[at..at+|t|];
  }

  lemma StandsAfter(f: string, t: string, g: string)
    ensures StandsAt(f + t + g, |f|, t)
  {}

  /** A number between two pieces is read as itself. */
  lemma {:induction false} FieldRead(f: string, at: nat, mark: string, n: nat, rest: string)
    requires StandsAt(f, at, mark + Decimal(n) + rest) && Bounds(rest)
    ensures ReadAfter(f, at, mark) == Some((n, at + |mark| + |Decimal(n)|))
    ensures StandsAt(f, at + |mark| + |Decimal(n)|, rest)
  {
    StandsJoin(f, at, mark + Decimal(n), rest);
    StandsJoin(f, at, mark, Decimal(n));
    var end := at + |mark| + |Decimal(n)|;
    assert f[end] == f[end..end+|rest|][0];
    ReadWritten(f, at + |mark|, n);
  }

  lemma {:induction false} OffsetsRise(m: Layout, objs: seq<string>, j: nat, k: nat)
    requires j <= k <= |objs|
    ensures |UpTo(m, objs, j)| <= |UpTo(m, objs, k)|
  {
    if j < k { OffsetsRise(m, objs, j, k - 1); }
  }

  /** Every object stands at its offset. */
  lemma {:induction false} ObjectStands(m: Layout, objs: seq<string>, num: nat, k: nat)
    requires 1 <= num <= k <= |objs|
    ensures StandsAt(UpTo(m, objs, k), Offset(m, objs, num), Obj(m, num, objs[num-1]))
  {
    hide Obj;
    if num == k {
      assert UpTo(m, objs, k) == UpTo(m, objs, k - 1) + Obj(m, k, objs[k-1]);
    } else {
      ObjectStands(m, objs, num, k - 1);
      StandsMore(UpTo(m, objs, k - 1), Obj(m, k, objs[k-1]), Offset(m, objs, num), Obj(m, num, objs[num-1]));
    }
  }

  // ----------------------------------------------------------------- the table

  /** Offsets that fit the ten digits an entry has for them. */
  ghost predicate Fits(m: Layout, objs: seq<string>, k: nat)
    requires k <= |objs|
  {
    forall j :: 1 <= j <= k ==> Offset(m, objs, j) < MAX_OFFSET
  }

  lemma TenDigits()
    ensures Pow10(10) == MAX_OFFSET
  {
    assert Pow10(5) == 100000;
    assert Pow10(6) == 10 * Pow10(5);
    assert Pow10(7) == 10 * Pow10(6);
    assert Pow10(8) == 10 * Pow10(7);
    assert Pow10(9) == 10 * Pow10(8);
    assert Pow10(10) == 10 * Pow10(9);
  }

  lemma EntryTwenty(m: Layout, offset: nat)
    requires Legible(m)
    ensures |Entry(m, offset)| == 20 <==> offset < MAX_OFFSET
    ensures offset < MAX_OFFSET ==> |Padded(offset, 10)| == 10
  {
    TenDigits();
    ParsePadded(offset, 10);
  }

  /** Entries of twenty bytes each, the offset of object `num` in the first ten of its own. */
  lemma {:induction false} EntryStands(m: Layout, objs: seq<string>, num: nat, k: nat)
    requires Legible(m) && num <= k <= |objs| && Fits(m, objs, k)
    ensures |Entries(m, objs, k)| == 20 * (k + 1)
    ensures num >= 1 ==> StandsAt(Entries(m, objs, k), 20 * num, Padded(Offset(m, objs, num), 10))
  {
    hide Offset, Padded;
    if k > 0 {
      var before, offset := Entries(m, objs, k - 1), Offset(m, objs, k);
      EntryTwenty(m, offset);
      if num == k {
        EntryStands(m, objs, k - 1, k - 1);
        assert Entries(m, objs, k) == before + Padded(offset, 10) + m.used;
        StandsAfter(before, Padded(offset, 10), m.used);
      } else {
        EntryStands(m, objs, num, k - 1);
        if num >= 1 { StandsMore(before, Entry(m, offset), 20 * num, Padded(Offset(m, objs, num), 10)); }
      }
    }
  }

  /** Where the entries begin. */
  ghost function TableAt(m: Layout, objs: seq<string>): nat {
    |UpTo(m, objs, |objs|)| + |m.xref| + |Decimal(|objs| + 1)| + |m.newLine|
  }

  /** The file as a whole: objects, table head, entries, trailer. */
  lemma {:induction false} FileParts(m: Layout, objs: seq<string>)
    ensures
      var f, body, at := File(m, objs), UpTo(m, objs, |objs|), |UpTo(m, objs, |objs|)|;
      && f == body + (m.xref + Decimal(|objs| + 1) + m.newLine) + Entries(m, objs, |objs|) + Trailer(m, objs, at)
      && StandsAt(f, at, m.xref + Decimal(|objs| + 1) + m.newLine)
      && StandsAt(f, TableAt(m, objs), Entries(m, objs, |objs|))
      && StandsAt(f, TableAt(m, objs) + |Entries(m, objs, |objs|)|, Trailer(m, objs, at))
  {
    hide UpTo, Entries, Trailer, Decimal;
    var body := UpTo(m, objs, |objs|);
    var head, entries, trailer := m.xref + Decimal(|objs| + 1) + m.newLine, Entries(m, objs, |objs|), Trailer(m, objs, |body|);
    assert File(m, objs) == body + head + entries + trailer;
    StandsAfter(body, head, entries + trailer);
    assert body + head + (entries + trailer) == body + head + entries + trailer;
    StandsAfter(body + head, entries, trailer);
    StandsAfter(body + head + entries, trailer, "");
    assert body + head + entries + trailer + "" == body + head + entries + trailer;
  }

  lemma EntryRead(m: Layout, objs: seq<string>, num: nat)
    requires Legible(m) && 1 <= num <= |objs| && Fits(m, objs, |objs|)
    ensures ReadEntry(File(m, objs), TableAt(m, objs), num) == Some(Offset(m, objs, num))
  {
    hide Offset, Padded, File, Entries, TableAt, ReadEntry, StandsAt;
    var f, at, entries := File(m, objs), TableAt(m, objs), Entries(m, objs, |objs|);
    FileParts(m, objs);
    EntryStands(m, objs, num, |objs|);
    var text := Padded(Offset(m, objs, num), 10);
    EntryTwenty(m, Offset(m, objs, num));
    ParsePadded(Offset(m, objs, num), 10);
    Within(f, at, entries, 20 * num, text);
    EntryText(f, at, num, text);
  }

  lemma {:induction false} EntryText(f: string, table: nat, num: nat, text: string)
    requires StandsAt(f, table + 20 * num, text) && |text| == 10 && AllDigits(text)
    ensures ReadEntry(f, table, num) == Some(Parse(text))
  {}

  /** A piece of a piece of the file stands in the file. */
  lemma Within(f: string, at: nat, t: string, i: nat, s: string)
    requires StandsAt(f, at, t) && StandsAt(t, i, s)
    ensures StandsAt(f, at + i, s)
  {
    forall k | 0 <= k < |s| ensures f[at+i+k] == s[k] {
      assert f[at+i+k] == f[at..at+|t|][i+k];
      assert t[i+k] == t[i..i+|s|][k];
    }
    assert f[at+i..at+i+|s|] == s;
  }

  /**
   The table gives every object its offset exactly when the last object begins before byte
   ten thousand million: one more digit, and an entry is no longer twenty bytes.
   */
  lemma TableReadsExactly(m: Layout, objs: seq<string>)
    requires Legible(m) && objs != []
    ensures (forall num :: 1 <= num <= |objs| ==> ReadEntry(File(m, objs), TableAt(m, objs), num) == Some(Offset(m, objs, num)))
            <==> Offset(m, objs, |objs|) < MAX_OFFSET
  {
    hide File, TableAt, Entries;
    var f, at := File(m, objs), TableAt(m, objs);
    if Offset(m, objs, |objs|) < MAX_OFFSET {
      forall j | 1 <= j <= |objs| ensures Offset(m, objs, j) < MAX_OFFSET { OffsetsRise(m, objs, j - 1, |objs| - 1); }
      forall num | 1 <= num <= |objs| ensures ReadEntry(f, at, num) == Some(Offset(m, objs, num)) { EntryRead(m, objs, num); }
    } else {
      ReadsBelow(f, at, |objs|);
    }
  }

  /** Ten digits say no more than ten digits can. */
  lemma ReadsBelow(f: string, at: nat, num: nat)
    ensures ReadEntry(f, at, num).Some? ==> ReadEntry(f, at, num).value < MAX_OFFSET
  {
    TenDigits();
    var i := at + 20 * num;
    if i + 10 <= |f| && AllDigits(f[i..i+10]) { ParseBound(f[i..i+10]); }
  }

  // ------------------------------------------------------ the last lines, read

  lemma {:induction false} BackRunIs(f: string, end: nat, n: nat)
    requires n < end <= |f| && (forall i :: end - n <= i < end ==> IsDigit(f[i])) && !IsDigit(f[end-n-1])
    ensures BackRun(f, end) == n
  {
    if n > 0 { BackRunIs(f, end - 1, n - 1); }
  }

  lemma BackNumber(f: string, pre: string, n: nat, post: string)
    requires f == pre + Decimal(n) + post && pre != [] && !IsDigit(pre[|pre|-1])
    ensures BackRun(f, |pre| + |Decimal(n)|) == |Decimal(n)|
    ensures f[|pre|..|pre|+|Decimal(n)|] == Decimal(n) && Parse(Decimal(n)) == n
  {
    hide Decimal, Parse;
    var end := |pre| + |Decimal(n)|;
    forall i | |pre| <= i < end ensures IsDigit(f[i]) {
      assert f[i] == Decimal(n)[i - |pre|];
    }
    assert f[|pre|-1] == pre[|pre|-1];
    BackRunIs(f, end, |Decimal(n)|);
    ParseDecimal(n);
  }

  lemma {:induction false} StartRead(m: Layout, pre: string, n: nat)
    requires Legible(m)
    ensures ReadStart(m, pre + m.start + Decimal(n) + m.eof) == Some(n)
  {
    hide Decimal, Parse, StandsAt, BackRun, Legible;
    var f := pre + m.start + Decimal(n) + m.eof;
    StartLegible(m, pre);
    BackNumber(f, pre + m.start, n, m.eof);
    StandsAfter(pre + m.start + Decimal(n), m.eof, "");
    assert pre + m.start + Decimal(n) + m.eof + "" == f;
    StandsAfter(pre, m.start, Decimal(n) + m.eof);
    assert pre + m.start + (Decimal(n) + m.eof) == f;
  }

  lemma StartLegible(m: Layout, pre: string)
    requires Legible(m)
    ensures pre + m.start != [] && !IsDigit((pre + m.start)[|pre + m.start|-1])
  {}

  lemma {:induction false} LastLines(m: Layout, objs: seq<string>)
    requires Legible(m)
    ensures ReadStart(m, File(m, objs)) == Some(|UpTo(m, objs, |objs|)|)
  {
    hide UpTo, Entries, Decimal, ReadStart, Xref;
    var at := |UpTo(m, objs, |objs|)|;
    var pre := UpTo(m, objs, |objs|) + Xref(m, objs) + (m.trailer + Decimal(|objs| + 1) + m.root + Decimal(1) + m.rootEnd);
    assert File(m, objs) == pre + m.start + Decimal(at) + m.eof;
    StartRead(m, pre, at);
  }

  lemma {:induction false} TableRead(m: Layout, objs: seq<string>)
    requires Legible(m)
    ensures ReadTable(m, File(m, objs), |UpTo(m, objs, |objs|)|) == Some((TableAt(m, objs), |objs| + 1))
  {
    hide UpTo, Entries, Trailer, Decimal, File, ReadNumber, StandsAt;
    FileParts(m, objs);
    FieldRead(File(m, objs), |UpTo(m, objs, |objs|)|, m.xref, |objs| + 1, m.newLine);
    MarkStands(File(m, objs), |UpTo(m, objs, |objs|)|, m.xref, |objs| + 1, m.newLine);
  }

  lemma {:induction false} MarkStands(f: string, at: nat, mark: string, n: nat, rest: string)
    requires StandsAt(f, at, mark + Decimal(n) + rest)
    ensures StandsAt(f, at, mark)
  {
    StandsJoin(f, at, mark + Decimal(n), rest);
    StandsJoin(f, at, mark, Decimal(n));
  }

  /** The trailer names object one as the root. */
  lemma TrailerRead(m: Layout, objs: seq<string>)
    requires Legible(m) && Fits(m, objs, |objs|)
    ensures ReadRoot(m, File(m, objs), TableAt(m, objs) + 20 * (|objs| + 1)) == Some(1)
  {
    hide UpTo, Entries, Decimal, File, ReadAfter, StandsAt, TableAt, Fits;
    FileParts(m, objs);
    EntryStands(m, objs, 0, |objs|);
    var f, at := File(m, objs), TableAt(m, objs) + 20 * (|objs| + 1);
    var tail := m.start + Decimal(|UpTo(m, objs, |objs|)|) + m.eof;
    var rest := m.root + Decimal(1) + (m.rootEnd + tail);
    assert Trailer(m, objs, |UpTo(m, objs, |objs|)|) == m.trailer + Decimal(|objs| + 1) + rest;
    assert rest[0] == m.root[0];
    FieldRead(f, at, m.trailer, |objs| + 1, rest);
    assert (m.rootEnd + tail)[0] == m.rootEnd[0];
    FieldRead(f, at + |m.trailer| + |Decimal(|objs| + 1)|, m.root, 1, m.rootEnd + tail);
  }

  // ------------------------------------------------------------ the objects, read

  /** An object is found through the table, and its body stands right there. */
  lemma ObjectRead(m: Layout, objs: seq<string>, num: nat) returns (at: nat)
    requires Legible(m) && 1 <= num <= |objs| && Fits(m, objs, |objs|)
    ensures ReadObject(m, File(m, objs), TableAt(m, objs), num) == Some(at)
    ensures StandsAt(File(m, objs), at, objs[num-1] + m.end)
  {
    hide UpTo, Entries, File, ReadEntry, TableAt, Decimal, StandsAt;
    var f, offset, body := File(m, objs), Offset(m, objs, num), objs[num-1];
    EntryRead(m, objs, num);
    ObjectStands(m, objs, num, |objs|);
    FileStarts(m, objs, offset, Obj(m, num, body));
    assert Obj(m, num, body) == (Decimal(num) + m.obj) + (body + m.end);
    StandsJoin(f, offset, Decimal(num) + m.obj, body + m.end);
    at := offset + |Decimal(num) + m.obj|;
  }

  lemma {:induction false} FileStarts(m: Layout, objs: seq<string>, at: nat, t: string)
    requires StandsAt(UpTo(m, objs, |objs|), at, t)
    ensures StandsAt(File(m, objs), at, t)
  {
    hide UpTo, Xref, Trailer, StandsAt;
    var body, xref, trailer := UpTo(m, objs, |objs|), Xref(m, objs), Trailer(m, objs, |UpTo(m, objs, |objs|)|);
    StandsMore(body, xref + trailer, at, t);
    assert body + (xref + trailer) == File(m, objs);
  }

  lemma {:induction false} BodyIs(m: Layout, streams: seq<string>, i: nat, k: nat, n: nat)
    requires i < k <= |streams|
    ensures Bodies(m, streams, k, n)[5 + 2 * i] == Page(m, i) && Bodies(m, streams, k, n)[6 + 2 * i] == Content(m, streams[i])
  {
    hide Page, Content;
    if i < k - 1 { BodyIs(m, streams, i, k - 1, n); }
  }

  lemma {:induction false} FirstBodies(m: Layout, streams: seq<string>, k: nat, n: nat)
    requires k <= |streams|
    ensures Bodies(m, streams, k, n)[0] == Catalog(m) && Bodies(m, streams, k, n)[1] == Pages(m, n)
  {
    hide Catalog, Pages, Page, Content;
    if k > 0 { FirstBodies(m, streams, k - 1, n); }
  }

  /** A content object read by its length gives its stream, whatever bytes the stream is made of. */
  lemma ContentRead(m: Layout, f: string, at: nat, stream: string, rest: string)
    requires Legible(m) && StandsAt(f, at, Content(m, stream) + rest)
    ensures ReadContent(m, f, at) == Some(stream)
  {
    hide Decimal, ReadNumber, StandsAt;
    var tail := m.stream + (stream + (m.endStream + rest));
    assert Content(m, stream) + rest == m.length + Decimal(|stream|) + tail;
    assert tail[0] == m.stream[0];
    FieldRead(f, at, m.length, |stream|, tail);
    var end := at + |m.length| + |Decimal(|stream|)|;
    StandsJoin(f, end, m.stream, stream + (m.endStream + rest));
    StandsJoin(f, end + |m.stream|, stream, m.endStream + rest);
    StandsIs(f, end + |m.stream|, stream);
  }

  lemma StandsIs(f: string, at: nat, t: string)
    requires StandsAt(f, at, t)
    ensures at + |t| <= |f| && f[at..at+|t|] == t
  {}

  /** Each page leads to its own stream. */
  lemma PageRead(m: Layout, streams: seq<string>, i: nat)
    requires Legible(m) && i < |streams| && Fits(m, Objects(m, streams), |Objects(m, streams)|)
    ensures ReadPage(m, File(m, Objects(m, streams)), TableAt(m, Objects(m, streams)), PageNum(i)) == Some(streams[i])
  {
    hide UpTo, File, TableAt, Decimal, StandsAt, Fits, Bodies, ReadObject, ReadAfter, ReadContent, Content;
    var objs := Objects(m, streams);
    var f := File(m, objs);
    BodyIs(m, streams, i, |streams|, |streams|);
    var at := ObjectRead(m, objs, PageNum(i));
    assert Page(m, i) + m.end == m.page + Decimal(PageNum(i) + 1) + (m.refEnd + m.end);
    assert (m.refEnd + m.end)[0] == m.refEnd[0];
    FieldRead(f, at, m.page, PageNum(i) + 1, m.refEnd + m.end);
    var body := ObjectRead(m, objs, PageNum(i) + 1);
    ContentRead(m, f, body, streams[i], m.end);
  }

  function PageNums(n: nat): (nums: seq<nat>)
    ensures |nums| == n && forall i :: 0 <= i < n ==> nums[i] == PageNum(i)
  {
    seq(n, i requires 0 <= i < n => PageNum(i))
  }

  lemma {:induction false} PagesRead(m: Layout, streams: seq<string>, n: nat)
    requires Legible(m) && n <= |streams| && Fits(m, Objects(m, streams), |Objects(m, streams)|)
    ensures ReadPages(m, File(m, Objects(m, streams)), TableAt(m, Objects(m, streams)), PageNums(n)) == Some(streams[..n])
  {
    hide File, TableAt, Fits, Objects, ReadPage;
    if n > 0 {
      PagesRead(m, streams, n - 1);
      PageRead(m, streams, n - 1);
      assert PageNums(n)[..n-1] == PageNums(n - 1);
      assert streams[..n] == streams[..n-1] + [streams[n-1]];
    }
  }

  function NumsFrom(lo: nat, n: nat): seq<nat>
    decreases n - lo
  {
    if lo >= n then [] else [PageNum(lo)] + NumsFrom(lo + 1, n)
  }

  lemma {:induction false} NumsAre(lo: nat, n: nat)
    requires lo <= n
    ensures NumsFrom(lo, n) == PageNums(n)[lo..]
    decreases n - lo
  {
    if lo < n { NumsAre(lo + 1, n); }
  }

  /** The list of kids names each page once, in order. */
  lemma {:induction false} KidsRead(m: Layout, f: string, at: nat, lo: nat, n: nat, rest: string)
    requires Legible(m) && lo <= n && StandsAt(f, at, Kids(m, lo, n) + rest) && Bounds(rest) && rest[0] != ' '
    ensures ReadRefs(m, f, at) == NumsFrom(lo, n)
    decreases n - lo
  {
    hide Decimal, ReadNumber, StandsAt;
    if lo == n {
      assert Kids(m, lo, n) + rest == rest;
      NoRefs(m, f, at, rest);
    } else {
      hide ReadRefs, Legible, Kids;
      var last := lo + 1 == n;
      var more := if last then rest else " " + (Kids(m, lo + 1, n) + rest);
      KidText(m, lo, n, rest, more);
      KidStep(m, f, at, PageNum(lo), more);
      var end := at + |Decimal(PageNum(lo))| + |m.ref|;
      if !last {
        StandsJoin(f, end, " ", Kids(m, lo + 1, n) + rest);
        KidsRead(m, f, end + 1, lo + 1, n, rest);
      }
    }
  }

  lemma {:induction false} NoRefs(m: Layout, f: string, at: nat, rest: string)
    requires StandsAt(f, at, rest) && Bounds(rest)
    ensures ReadRefs(m, f, at) == []
  {
    assert f[at] == f[at..at+|rest|][0];
  }

  lemma KidText(m: Layout, lo: nat, n: nat, rest: string, more: string)
    requires lo < n && more == if lo + 1 == n then rest else " " + (Kids(m, lo + 1, n) + rest)
    ensures Kids(m, lo, n) + rest == Decimal(PageNum(lo)) + (m.ref + more)
  {
    hide Decimal;
  }

  lemma StandsHead(f: string, at: nat, t: string)
    requires StandsAt(f, at, t) && t != []
    ensures at < |f| && f[at] == t[0]
  {
    assert f[at] == f[at..at+|t|][0];
  }

  lemma RefsUnfold(m: Layout, f: string, at: nat, num: nat, next: nat)
    requires m.ref != [] && at < |f| && IsDigit(f[at]) && ReadNumber(f, at) == (num, next) && StandsAt(f, next, m.ref)
    ensures
      var end := next + |m.ref|;
      ReadRefs(m, f, at) == [num] + (if end < |f| && f[end] == ' ' then ReadRefs(m, f, end + 1) else [])
  {
    hide ReadNumber, StandsAt;
  }

  /** One reference, and whether another follows it. */
  lemma KidStep(m: Layout, f: string, at: nat, num: nat, more: string)
    requires Legible(m) && StandsAt(f, at, Decimal(num) + (m.ref + more)) && more != []
    ensures
      var end := at + |Decimal(num)| + |m.ref|;
      && StandsAt(f, end, more) && end < |f|
      && ReadRefs(m, f, at) == [num] + (if more[0] == ' ' then ReadRefs(m, f, end + 1) else [])
  {
    RefBounds(m);
    hide *;
    var next := KidParts(m, f, at, num, more);
    RefsUnfold(m, f, at, num, next);
  }

  lemma KidParts(m: Layout, f: string, at: nat, num: nat, more: string) returns (next: nat)
    requires Legible(m) && StandsAt(f, at, Decimal(num) + (m.ref + more)) && more != []
    ensures next == at + |Decimal(num)| && at < |f| && IsDigit(f[at]) && ReadNumber(f, at) == (num, next)
    ensures StandsAt(f, next, m.ref) && StandsAt(f, next + |m.ref|, more)
    ensures next + |m.ref| < |f| && f[next + |m.ref|] == more[0]
  {
    hide *;
    next := at + |Decimal(num)|;
    RefRead(m, f, at, num, more);
    StandsJoin(f, at, Decimal(num), m.ref + more);
    StandsJoin(f, next, m.ref, more);
    StandsHead(f, next + |m.ref|, more);
  }

  lemma RefBounds(m: Layout)
    requires Legible(m)
    ensures Bounds(m.ref) && m.ref != []
  {}

  lemma {:induction false} RefRead(m: Layout, f: string, at: nat, n: nat, more: string)
    requires Legible(m) && StandsAt(f, at, Decimal(n) + (m.ref + more))
    ensures at < |f| && IsDigit(f[at]) && ReadNumber(f, at) == (n, at + |Decimal(n)|)
  {
    RefBounds(m);
    hide Legible, Decimal, ReadNumber, StandsAt;
    var rest := m.ref + more;
    assert rest[0] == m.ref[0];
    assert "" + Decimal(n) + rest == Decimal(n) + rest;
    FieldRead(f, at, "", n, rest);
    StandsJoin(f, at, "", Decimal(n) + rest);
    assert ReadAfter(f, at, "") == Some(ReadNumber(f, at));
    StandsHead(f, at, Decimal(n) + rest);
    assert (Decimal(n) + rest)[0] == Decimal(n)[0];
  }

  lemma {:induction false} ListRead(m: Layout, f: string, at: nat, n: nat, rest: string)
    requires Legible(m) && StandsAt(f, at, Pages(m, n) + rest)
    ensures
      var count := ReadAfter(f, at, m.pages);
      && count.Some? && count.value.0 == n && StandsAt(f, count.value.1, m.kids)
      && ReadRefs(m, f, count.value.1 + |m.kids|) == PageNums(n)
  {
    hide Decimal, ReadAfter, ReadRefs, Kids, PageNums, StandsAt;
    var tail := m.kids + (Kids(m, 0, n) + (m.kidsEnd + rest));
    assert Pages(m, n) + rest == m.pages + Decimal(n) + tail;
    assert tail[0] == m.kids[0];
    FieldRead(f, at, m.pages, n, tail);
    var end := at + |m.pages| + |Decimal(n)|;
    StandsJoin(f, end, m.kids, Kids(m, 0, n) + (m.kidsEnd + rest));
    assert (m.kidsEnd + rest)[0] == m.kidsEnd[0];
    KidsRead(m, f, end + |m.kids|, 0, n, m.kidsEnd + rest);
    NumsAre(0, n);
    assert PageNums(n)[0..] == PageNums(n);
  }

  lemma CatalogRead(m: Layout, f: string, at: nat, rest: string)
    requires Legible(m) && StandsAt(f, at, Catalog(m) + rest)
    ensures ReadAfter(f, at, m.catalog).Some? && ReadAfter(f, at, m.catalog).value.0 == 2
  {
    hide Decimal, ReadAfter, StandsAt;
    assert Catalog(m) + rest == m.catalog + Decimal(2) + (m.refEnd + rest);
    assert (m.refEnd + rest)[0] == m.refEnd[0];
    FieldRead(f, at, m.catalog, 2, m.refEnd + rest);
  }

  /** Following the file from its last lines gives back every page stream, in order. */
  lemma FileReads(m: Layout, streams: seq<string>)
    requires Legible(m) && Fits(m, Objects(m, streams), |Objects(m, streams)|)
    ensures Read(m, File(m, Objects(m, streams))) == Some(streams)
  {
    hide UpTo, File, TableAt, Decimal, StandsAt, Fits, Bodies, ReadObject, ReadAfter, ReadRefs, ReadPages, ReadStart, ReadTable, ReadRoot, Pages, Catalog;
    var objs := Objects(m, streams);
    var f := File(m, objs);
    LastLines(m, objs);
    TableRead(m, objs);
    TrailerRead(m, objs);
    FirstBodies(m, streams, |streams|, |streams|);
    var catalog := ObjectRead(m, objs, 1);
    CatalogRead(m, f, catalog, m.end);
    var list := ObjectRead(m, objs, 2);
    ListRead(m, f, list, |streams|, m.end);
    PagesRead(m, streams, |streams|);
    assert streams[..|streams|] == streams;
  }

  lemma PdfLegible()
    ensures Legible(PdfLayout())
  {}

  // ------------------------------------------------------------ past ten digits

  /** Entries are never shorter than twenty bytes, and longer together once an offset needs eleven digits. */
  lemma {:induction false} EntriesLonger(m: Layout, objs: seq<string>, k: nat)
    requires Legible(m) && k <= |objs|
    ensures |Entries(m, objs, k)| >= 20 * (k + 1)
    ensures k >= 1 && Offset(m, objs, k) >= MAX_OFFSET ==> |Entries(m, objs, k)| > 20 * (k + 1)
  {
    hide Offset, Padded;
    if k > 0 {
      EntriesLonger(m, objs, k - 1);
      EntryTwenty(m, Offset(m, objs, k));
    }
  }

  /** A character that is no digit and in no fixed piece of the table is nowhere in it. */
  lemma {:induction false} NotInEntries(m: Layout, objs: seq<string>, k: nat, c: char)
    requires k <= |objs| && !IsDigit(c) && c !in m.free && c !in m.used
    ensures c !in Entries(m, objs, k)
  {
    hide Offset, Padded;
    if k > 0 {
      NotInEntries(m, objs, k - 1, c);
      var digits := Padded(Offset(m, objs, k), 10);
      assert forall i :: 0 <= i < |digits| ==> IsDigit(digits[i]);
    }
  }

  /** Where twenty bytes an entry put the trailer, the table still goes on. */
  lemma TrailerMissed(m: Layout, objs: seq<string>)
    requires Legible(m) && TrailerStandsOut(m) && objs != [] && Offset(m, objs, |objs|) >= MAX_OFFSET
    ensures ReadRoot(m, File(m, objs), TableAt(m, objs) + 20 * (|objs| + 1)) == None
  {
    hide UpTo, Entries, Trailer, File, TableAt, Legible, Offset;
    var f, at, entries := File(m, objs), TableAt(m, objs), Entries(m, objs, |objs|);
    FileParts(m, objs);
    EntriesLonger(m, objs, |objs|);
    NotInEntries(m, objs, |objs|, m.trailer[0]);
    var i := 20 * (|objs| + 1);
    assert f[at + i] == f[at..at+|entries|][i] == entries[i];
    NotThere(f, at + i, m.trailer);
  }

  lemma NotThere(f: string, at: nat, t: string)
    requires at < |f| && t != [] && f[at] != t[0]
    ensures !StandsAt(f, at, t)
  {
    assert at + |t| <= |f| ==> f[at] == f[at..at+|t|][0];
  }

  lemma FileUnread(m: Layout, objs: seq<string>)
    requires Legible(m) && TrailerStandsOut(m) && objs != [] && Offset(m, objs, |objs|) >= MAX_OFFSET
    ensures Read(m, File(m, objs)) == None
  {
    hide UpTo, File, TableAt, Offset, Legible, TrailerStandsOut, ReadStart, ReadTable, ReadRoot, ReadFrom;
    LastLines(m, objs);
    TableRead(m, objs);
    TrailerMissed(m, objs);
  }

  lemma PdfTrailerStandsOut()
    ensures TrailerStandsOut(PdfLayout())
  {
    PdfTable();
    hide PdfLayout;
  }

  lemma PdfTable()
    ensures PdfLayout().trailer == "trailer\n<< /Size " && PdfLayout().free == "0000000000 65535 f \n" && PdfLayout().used == " 00000 n \n"
  {
    hide Font;
  }

  /**
   A file `_build` writes can be read back, for any page streams whatever bytes they hold,
   exactly when its last object begins before byte ten thousand million. Past that, a reader
   misses the trailer and finds no page at all.
   */
  lemma BuiltFileReads(streams: seq<string>)
    ensures Read(PdfLayout(), Pdf(streams)) == Some(streams) <==> LastOffset(streams) < MAX_OFFSET
    ensures LastOffset(streams) >= MAX_OFFSET ==> Read(PdfLayout(), Pdf(streams)) == None
  {
    BuiltIs(streams);
    LastIs(PdfLayout(), streams);
    hide *;
    PdfLegible();
    PdfTrailerStandsOut();
    if LastOffset(streams) < MAX_OFFSET {
      LastFits(PdfLayout(), streams);
      FileReads(PdfLayout(), streams);
    } else {
      FileUnread(PdfLayout(), Objects(PdfLayout(), streams));
    }
  }

  lemma LastIs(m: Layout, streams: seq<string>)
    ensures Objects(m, streams) != [] && LastOffsetIn(m, streams) == Offset(m, Objects(m, streams), |Objects(m, streams)|)
  {
    hide Bodies, Offset;
  }

  lemma BuiltIs(streams: seq<string>)
    ensures Pdf(streams) == File(PdfLayout(), Objects(PdfLayout(), streams))
    ensures LastOffset(streams) == LastOffsetIn(PdfLayout(), streams)
  {
    hide File, Objects, PdfLayout, Offset;
  }

  /** A page of ten thousand million bytes with another after it: nothing is found again. */
  lemma OversizeUnread(streams: seq<string>)
    requires |streams| >= 2 && |streams[0]| >= MAX_OFFSET
    ensures Read(PdfLayout(), Pdf(streams)) == None
  {
    BigPage(PdfLayout(), streams);
    BuiltIs(streams);
    hide *;
    BuiltFileReads(streams);
  }

  lemma BigPage(m: Layout, streams: seq<string>)
    requires |streams| >= 2 && |streams[0]| >= MAX_OFFSET
    ensures LastOffsetIn(m, streams) >= MAX_OFFSET
  {
    hide Page, Catalog, Pages, Decimal, Bodies;
    var objs := Objects(m, streams);
    BodyIs(m, streams, 0, |streams|, |streams|);
    assert |Obj(m, 7, objs[6])| >= |Content(m, streams[0])| >= MAX_OFFSET;
    assert UpTo(m, objs, 7) == UpTo(m, objs, 6) + Obj(m, 7, objs[6]);
    OffsetsRise(m, objs, 7, |objs| - 1);
  }

  lemma LastFits(m: Layout, streams: seq<string>)
    requires LastOffsetIn(m, streams) < MAX_OFFSET
    ensures Fits(m, Objects(m, streams), |Objects(m, streams)|)
  {
    hide Objects, UpTo;
    var objs := Objects(m, streams);
    forall j | 1 <= j <= |objs| ensures Offset(m, objs, j) < MAX_OFFSET { OffsetsRise(m, objs, j - 1, |objs| - 1); }
  }
}
