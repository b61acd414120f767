/** The part-list scanner of `src/gateway.rs`: what it reads out of any text, and exactly which lists
    survive being printed and scanned. */
module PartListXml {
  import opened Basics
  import opened Search
  import opened Text

  type Entry = (u32, string)

  // ---- the scanner ----

  /** The text of the first `<tag>…</tag>` in `s`. */
  function ExtractTag(s: string, tag: string): Option<string> {
    match Find(s, "<" + tag + ">")
    case None => None
    case Some(i) =>
      var start := i + |tag| + 2;
      match Find(s[start..], "</" + tag + ">")
      case None => None
      case Some(len) => Some(s[start..start + len])
  }

  /** The entry a `<Part>` block holds, unless a field is missing or the number does not parse. */
  function EntryOf(block: string): Option<Entry> {
    match ExtractTag(block, "PartNumber")
    case None => None
    case Some(text) =>
      match ParseUnsigned(Trim(text), U32_LIMIT)
      case None => None
      case Some(n) =>
        match ExtractTag(block, "ETag")
        case None => None
        case Some(etag) => Some((n, TrimBoth(Trim(etag), IsQuote)))
  }

  function Listed(block: string): seq<Entry> {
    match EntryOf(block)
    case None => []
    case Some(entry) => [entry]
  }

  /** The entries of a text, block by block. */
  function ParsedParts(xml: string): seq<Entry>
    decreases |xml|
  {
    match Find(xml, "<Part>")
    case None => []
    case Some(start) =>
      var after := xml[start + 6..];
      match Find(after, "</Part>")
      case None => []
      case Some(end) => Listed(after[..end]) + ParsedParts(after[end + 7..])
  }

  /** The scanning loop of `parse_complete_parts`; what is left to scan shrinks, so it ends on every input. */
  method ParseCompleteParts(xml: string) returns (parts: seq<Entry>)
    ensures parts == ParsedParts(xml)
    ensures forall i :: 0 <= i < |parts| ==> Survives(parts[i].1)
  {
    hide Find, EntryOf, Survives, ParsedParts, Listed, OccursAt;
    AllSurvive(xml);
    parts := [];
    var rest := xml;
    var found := Find(rest, "<Part>");
    while found.Some?
      invariant found == Find(rest, "<Part>")
      invariant ParsedParts(xml) == parts + ParsedParts(rest)
      decreases |rest|
    {
      ScanStep(rest);
      var start := found.value;
      var after := rest[start + 6..];
      var end := Find(after, "</Part>");
      if end.None? { break; }
      var block := after[..end.value];
      rest := after[end.value + 7..];
      var entry := EntryOf(block);
      if entry.Some? { parts := parts + [entry.value]; }
      found := Find(rest, "<Part>");
    }
    ScanStep(rest);
  }

  /** What a text holds up to the end of its first block, and after it. */
  lemma ScanStep(xml: string)
    ensures Find(xml, "<Part>").None? ==> ParsedParts(xml) == []
    ensures Find(xml, "<Part>").Some? ==> Find(xml, "<Part>").value + 6 <= |xml|
    ensures Find(xml, "<Part>").Some? ==>
              var after := xml[Find(xml, "<Part>").value + 6..];
              match Find(after, "</Part>")
              case None => ParsedParts(xml) == []
              case Some(end) =>
                end + 7 <= |after|
                && ParsedParts(xml) ==
                   (match EntryOf(after[..end]) case Some(e) => [e] case None => []) + ParsedParts(after[end + 7..])
  {
    hide EntryOf;
  }

  // ---- the printer ----

  function PrintPart(entry: Entry): string {
    "<Part>" + PrintBlock(entry) + "</Part>"
  }

  function PrintBlock(entry: Entry): string {
    "<PartNumber>" + Decimal(entry.0) + "</PartNumber>" + ("<ETag>" + ("\"" + entry.1 + "\"") + "</ETag>")
  }

  function PrintParts(parts: seq<Entry>): string {
    if parts == [] then "" else PrintPart(parts[0]) + PrintParts(parts[1..])
  }

  function ListTag(): string {
    "CompleteMultipartUpload"
  }

  function OpenList(): string {
    "<" + ListTag() + ">"
  }

  function CloseList(): string {
    "</" + ListTag() + ">"
  }

  /** The document that clients send, one part after another. */
  function PrintList(parts: seq<Entry>): string {
    OpenList() + (PrintParts(parts) + CloseList())
  }

  /** An ETag without the closing tags that end its element or its part, and without a quote at either end. */
  ghost predicate Survives(etag: string) {
    !Occurs(etag, "</ETag>") && !Occurs(etag, "</Part>") && Tight(etag, IsQuote)
  }

  // ---- searching past text ----

  /** The pattern does not begin inside `seg` when `rest` follows it. */
  ghost predicate Skips(seg: string, rest: string, pat: string) {
    forall k :: 0 <= k < |seg| ==> !OccursAt(seg + rest, pat, k)
  }

  lemma FindPast(seg: string, pat: string, rest: string)
    requires Skips(seg, pat + rest, pat)
    ensures Find(seg + (pat + rest), pat) == Some(|seg|)
  {
    assert (seg + (pat + rest))[|seg|..|seg| + |pat|] == pat;
    FindIs(seg + (pat + rest), pat, |seg|);
  }

  lemma SkipsJoin(a: string, b: string, rest: string, pat: string)
    requires Skips(a, b + rest, pat) && Skips(b, rest, pat)
    ensures Skips(a + b, rest, pat)
  {
    assert (a + b) + rest == a + (b + rest);
    forall k | 0 <= k < |a + b| ensures !OccursAt((a + b) + rest, pat, k) {
      if k >= |a| { OccursShift(a, b + rest, pat, k - |a|); }
    }
  }

  lemma OccursShift(a: string, b: string, pat: string, k: nat)
    ensures OccursAt(a + b, pat, |a| + k) <==> OccursAt(b, pat, k)
  {
    if k + |pat| <= |b| { assert (a + b)[|a| + k..|a| + k + |pat|] == b[k..k + |pat|]; }
  }

  /** Text without the pattern's first character is skipped. */
  lemma SkipsPlain(seg: string, rest: string, pat: string)
    requires pat != [] && pat[0] !in seg
    ensures Skips(seg, rest, pat)
  {
    forall k | 0 <= k < |seg| ensures !OccursAt(seg + rest, pat, k) {
      assert (seg + rest)[k] == seg[k] && seg[k] in seg;
      if OccursAt(seg + rest, pat, k) { OccursAtIndex(seg + rest, pat, k, 0); }
    }
  }

  /** A tag that differs from the pattern early on, and opens only once, is skipped. */
  lemma SkipsTag(tag: string, rest: string, pat: string, q: nat)
    requires q < |tag| && q < |pat| && tag[q] != pat[q] && pat[0] !in tag[1..]
    ensures Skips(tag, rest, pat)
  {
    forall k | 0 <= k < |tag| ensures !OccursAt(tag + rest, pat, k) {
      assert k > 0 ==> tag[1..][k - 1] == tag[k];
      if OccursAt(tag + rest, pat, k) {
        OccursAtIndex(tag + rest, pat, k, if k == 0 then q else 0);
      }
    }
  }

  /** Text without the pattern is skipped when a character foreign to the pattern follows it. */
  lemma SkipsText(seg: string, rest: string, pat: string)
    requires !Occurs(seg, pat) && rest != [] && rest[0] !in pat
    ensures Skips(seg, rest, pat)
  {
    forall k | 0 <= k < |seg| ensures !OccursAt(seg + rest, pat, k) {
      if k + |pat| <= |seg| {
        OccursInPrefix(seg, rest, pat, k);
      } else {
        assert pat[|seg| - k] in pat && (seg + rest)[|seg|] == rest[0];
        if OccursAt(seg + rest, pat, k) { OccursAtIndex(seg + rest, pat, k, |seg| - k); }
      }
    }
  }

  // ---- printing and scanning ----

  lemma DigitsPlain(n: nat)
    ensures '<' !in Decimal(n) && Trim(Decimal(n)) == Decimal(n)
  {
    var s := Decimal(n);
    assert IsDigit(s[0]) && IsDigit(s[|s| - 1]);
    TrimTight(s, IsWhitespace);
  }

  /** The quoted ETag is passed over by a search for either closing tag. */
  lemma SkipsQuoted(etag: string, rest: string, pat: string)
    requires pat != [] && pat[0] == '<' && '"' !in pat && !Occurs(etag, pat)
    ensures Skips("\"" + etag + "\"", rest, pat)
  {
    SkipsPlain("\"", etag + ("\"" + rest), pat);
    SkipsText(etag, "\"" + rest, pat);
    SkipsPlain("\"", rest, pat);
    SkipsJoin(etag, "\"", rest, pat);
    assert etag + ("\"" + rest) == (etag + "\"") + rest;
    SkipsJoin("\"", etag + "\"", rest, pat);
    assert "\"" + etag + "\"" == "\"" + (etag + "\"");
  }

  /** The number field is passed over by a search for the ETag field or for the end of the part. */
  lemma SkipsNumber(n: u32, tail: string, pat: string)
    requires pat == "<ETag>" || pat == "</Part>"
    ensures Skips("<PartNumber>" + (Decimal(n) + "</PartNumber>"), tail, pat)
  {
    hide Skips, Decimal;
    var d := Decimal(n);
    DigitsPlain(n);
    SkipsTag("</PartNumber>", tail, pat, if pat == "<ETag>" then 1 else 6);
    SkipsPlain(d, "</PartNumber>" + tail, pat);
    SkipsJoin(d, "</PartNumber>", tail, pat);
    SkipsTag("<PartNumber>", (d + "</PartNumber>") + tail, pat, 1);
    SkipsJoin("<PartNumber>", d + "</PartNumber>", tail, pat);
  }

  /** A printed block contains no end of part. */
  lemma SkipsBlock(entry: Entry, rest: string)
    requires Survives(entry.1)
    ensures Skips(PrintBlock(entry), rest, "</Part>")
  {
    hide Skips, Survives, Decimal;
    var pat, q := "</Part>", "\"" + entry.1 + "\"";
    SurvivesMeans(entry.1);
    SkipsTag("</ETag>", rest, pat, 2);
    SkipsQuoted(entry.1, "</ETag>" + rest, pat);
    SkipsJoin(q, "</ETag>", rest, pat);
    SkipsTag("<ETag>", (q + "</ETag>") + rest, pat, 1);
    SkipsJoin("<ETag>", q + "</ETag>", rest, pat);
    var number, field := "<PartNumber>" + (Decimal(entry.0) + "</PartNumber>"), "<ETag>" + (q + "</ETag>");
    SkipsNumber(entry.0, field + rest, pat);
    SkipsJoin(number, field, rest, pat);
    assert PrintBlock(entry) == number + field;
  }

  lemma SurvivesMeans(etag: string)
    ensures Survives(etag) <==> !Occurs(etag, "</ETag>") && !Occurs(etag, "</Part>") && Tight(etag, IsQuote)
  {
  }

  /** A tag that opens right where a search finds it yields the text up to its close. */
  lemma ExtractAt(before: string, tag: string, text: string, rest: string)
    requires Skips(before, "<" + tag + ">" + (text + ("</" + tag + ">" + rest)), "<" + tag + ">")
    requires Skips(text, "</" + tag + ">" + rest, "</" + tag + ">")
    ensures ExtractTag(before + ("<" + tag + ">" + (text + ("</" + tag + ">" + rest))), tag) == Some(text)
  {
    hide Skips, Find;
    var open, close := "<" + tag + ">", "</" + tag + ">";
    var body := text + (close + rest);
    var s := before + (open + body);
    FindPast(before, open, body);
    FindPast(text, close, rest);
    var start := |before| + |tag| + 2;
    assert s[start..] == body;
    assert s[start..start + |text|] == body[..|text|] == text;
  }

  /** `text` stands between the first opening tag and the first closing tag after it. */
  ghost predicate Encloses(s: string, tag: string, before: string, text: string, rest: string) {
    s == before + ("<" + tag + ">" + (text + ("</" + tag + ">" + rest)))
    && Skips(before, "<" + tag + ">" + (text + ("</" + tag + ">" + rest)), "<" + tag + ">")
    && Skips(text, "</" + tag + ">" + rest, "</" + tag + ">")
  }

  lemma ExtractExactly(s: string, tag: string, text: string)
    ensures ExtractTag(s, tag) == Some(text) <==> exists before, rest :: Encloses(s, tag, before, text, rest)
  {
    hide Skips;
    forall before, rest | Encloses(s, tag, before, text, rest) ensures ExtractTag(s, tag) == Some(text) {
      ExtractAt(before, tag, text, rest);
    }
    if ExtractTag(s, tag) == Some(text) {
      var before, rest := Enclosed(s, tag);
    }
  }

  lemma Enclosed(s: string, tag: string) returns (before: string, rest: string)
    requires ExtractTag(s, tag).Some?
    ensures Encloses(s, tag, before, ExtractTag(s, tag).value, rest)
  {
    hide Find, Skips, OccursAt;
    var open, close := "<" + tag + ">", "</" + tag + ">";
    CutAtFirst(s, open);
    var i := Find(s, open).value;
    var body := s[i + |open|..];
    CutAtFirst(body, close);
    var len := Find(body, close).value;
    before, rest := s[..i], body[len + |close|..];
    assert s[i + |open|..i + |open| + len] == body[..len];
  }

  /** Text is what precedes the first occurrence of a pattern, the pattern, and what follows it. */
  lemma CutAtFirst(s: string, pat: string)
    requires Find(s, pat).Some?
    ensures var i := Find(s, pat).value;
            i + |pat| <= |s| && s == s[..i] + (pat + s[i + |pat|..]) && Skips(s[..i], pat + s[i + |pat|..], pat)
  {
  }

  /** `t` is what is left of `s` without the characters at its ends that `p` holds of. */
  ghost predicate Padded(s: string, t: string, p: char -> bool) {
    Tight(t, p) && exists w, v :: s == w + (t + v) && Wholly(w, p) && Wholly(v, p)
  }

  /** Which entry a block holds, whatever else it contains: a number and an ETag, padded with white space, the ETag
      with or without quotes. Any other block holds none. */
  lemma EntryExactly(block: string, n: u32, etag: string)
    ensures EntryOf(block) == Some((n, etag)) <==>
            exists number, digits, field, quoted ::
              ExtractTag(block, "PartNumber") == Some(number) && Padded(number, digits, IsWhitespace)
              && ParseUnsigned(digits, U32_LIMIT) == Some(n)
              && ExtractTag(block, "ETag") == Some(field) && Padded(field, quoted, IsWhitespace)
              && Padded(quoted, etag, IsQuote)
  {
    hide ExtractTag, ParseUnsigned, TrimBoth, Padded;
    var number, field := ExtractTag(block, "PartNumber"), ExtractTag(block, "ETag");
    if number.Some? && field.Some? {
      forall digits ensures Padded(number.value, digits, IsWhitespace) <==> Trim(number.value) == digits {
        PaddedExactly(number.value, digits, IsWhitespace);
      }
      forall quoted ensures Padded(field.value, quoted, IsWhitespace) <==> Trim(field.value) == quoted {
        PaddedExactly(field.value, quoted, IsWhitespace);
      }
      PaddedExactly(Trim(field.value), etag, IsQuote);
    }
  }

  lemma PaddedExactly(s: string, t: string, p: char -> bool)
    ensures Padded(s, t, p) <==> TrimBoth(s, p) == t
  {
    TrimExactly(s, p, t);
  }

  lemma NumberExtracted(entry: Entry)
    ensures ExtractTag(PrintBlock(entry), "PartNumber") == Some(Decimal(entry.0))
  {
    hide Skips, ExtractTag, Decimal;
    var d, field := Decimal(entry.0), "<ETag>" + ("\"" + entry.1 + "\"") + "</ETag>";
    var open, close := "<" + "PartNumber" + ">", "</" + "PartNumber" + ">";
    DigitsPlain(entry.0);
    SkipsPlain("", open + (d + (close + field)), open);
    SkipsPlain(d, close + field, close);
    ExtractAt("", "PartNumber", d, field);
    assert PrintBlock(entry) == "" + (open + (d + (close + field)));
  }

  lemma EtagExtracted(entry: Entry)
    requires Survives(entry.1)
    ensures ExtractTag(PrintBlock(entry), "ETag") == Some("\"" + entry.1 + "\"")
  {
    hide Skips, ExtractTag, Decimal, Survives;
    var d, q := Decimal(entry.0), "\"" + entry.1 + "\"";
    var open, close := "<" + "ETag" + ">", "</" + "ETag" + ">";
    assert open == "<ETag>" && close == "</ETag>";
    var tail := open + (q + (close + ""));
    SurvivesMeans(entry.1);
    SkipsNumber(entry.0, tail, open);
    SkipsQuoted(entry.1, close + "", close);
    ExtractAt("<PartNumber>" + (d + "</PartNumber>"), "ETag", q, "");
    assert PrintBlock(entry) == ("<PartNumber>" + (d + "</PartNumber>")) + tail;
  }

  lemma EntryRead(entry: Entry)
    requires Survives(entry.1)
    ensures EntryOf(PrintBlock(entry)) == Some(entry)
  {
    hide ExtractTag, Decimal, Survives, PrintBlock, TrimStart, TrimEnd, ParseUnsigned;
    var q := "\"" + entry.1 + "\"";
    SurvivesMeans(entry.1);
    NumberExtracted(entry);
    EtagExtracted(entry);
    DigitsPlain(entry.0);
    ParseDecimal(entry.0, U32_LIMIT);
    TrimTight(q, IsWhitespace);
    TrimWrapped(entry.1, '"', IsQuote);
    assert q == ['"'] + entry.1 + ['"'];
  }

  /** Scanning one printed part yields its entry and goes on after it. */
  lemma PartRead(before: string, entry: Entry, rest: string)
    requires Survives(entry.1) && Skips(before, PrintPart(entry) + rest, "<Part>")
    ensures ParsedParts(before + (PrintPart(entry) + rest)) == [entry] + ParsedParts(rest)
  {
    hide Skips, EntryOf, Survives, PrintBlock, Find, Decimal;
    var block := PrintBlock(entry);
    var after := block + ("</Part>" + rest);
    var xml := before + ("<Part>" + after);
    assert PrintPart(entry) + rest == "<Part>" + after;
    FindPast(before, "<Part>", after);
    SkipsBlock(entry, "</Part>" + rest);
    FindPast(block, "</Part>", rest);
    EntryRead(entry);
    assert xml[|before| + 6..] == after;
    assert after[..|block|] == block && after[|block| + 7..] == rest;
  }

  lemma {:induction false} PartsRead(before: string, parts: seq<Entry>)
    requires forall i :: 0 <= i < |parts| ==> Survives(parts[i].1)
    requires before == OpenList() || before == ""
    ensures ParsedParts(before + (PrintParts(parts) + CloseList())) == parts
    decreases |parts|
  {
    hide Skips, Survives, PrintPart, ParsedParts, PrintParts, OpenList, CloseList;
    var close := CloseList();
    var rest := PrintParts(parts) + close;
    SkipsHead(before, rest);
    PrintPartsStep(parts, close);
    if parts == [] {
      NothingRead(before);
    } else {
      var tail := PrintParts(parts[1..]) + close;
      PartRead(before, parts[0], tail);
      PartsRead("", parts[1..]);
      assert "" + tail == tail;
    }
  }

  lemma ListTagPlain()
    ensures ListTag() != "" && ListTag()[0] == 'C' && '<' !in ListTag()
  {
  }

  lemma OpenListFacts()
    ensures |OpenList()| > 1 && OpenList()[1] == 'C' && '<' !in OpenList()[1..]
  {
    hide ListTag;
    ListTagPlain();
    assert OpenList()[1..] == ListTag() + ">";
  }

  lemma CloseListFacts()
    ensures |CloseList()| > 1 && CloseList()[1] == '/' && '<' !in CloseList()[1..]
  {
    hide ListTag;
    ListTagPlain();
    assert CloseList()[1..] == "/" + ListTag() + ">";
  }

  lemma SkipsHead(before: string, rest: string)
    requires before == OpenList() || before == ""
    ensures Skips(before, rest, "<Part>")
  {
    hide Skips, OpenList;
    OpenListFacts();
    if before == "" { SkipsPlain(before, rest, "<Part>"); } else { SkipsTag(before, rest, "<Part>", 1); }
  }

  lemma PrintPartsStep(parts: seq<Entry>, close: string)
    ensures parts == [] ==> PrintParts(parts) + close == close
    ensures parts != [] ==> PrintParts(parts) + close == PrintPart(parts[0]) + (PrintParts(parts[1..]) + close)
  {
    hide PrintPart;
  }

  lemma NothingRead(before: string)
    requires Skips(before, CloseList(), "<Part>")
    ensures ParsedParts(before + CloseList()) == []
  {
    hide Skips, CloseList;
    var close := CloseList();
    CloseListFacts();
    SkipsTag(close, "", "<Part>", 1);
    assert close + "" == close;
    SkipsJoin(before, close, "", "<Part>");
    SkipsAll(before + close, "<Part>");
  }

  lemma SkipsAll(s: string, pat: string)
    requires Skips(s, "", pat) && pat != []
    ensures Find(s, pat) == None
  {
    assert s + "" == s;
  }

  // ---- what the scanner can produce ----

  lemma WindowOccurs(s: string, m: nat, n: nat, pat: string)
    requires m <= n <= |s|
    ensures Occurs(s[m..n], pat) ==> Occurs(s, pat)
  {
    if Occurs(s[m..n], pat) {
      var i :| OccursAt(s[m..n], pat, i);
      SliceOfSlice(s, m, n, i, i + |pat|);
      assert OccursAt(s, pat, m + i);
    }
  }

  /** Text cut off before the first occurrence of a pattern does not contain it. */
  lemma BeforeFirst(s: string, pat: string)
    requires Find(s, pat).Some? && pat != []
    ensures !Occurs(s[..Find(s, pat).value], pat)
  {
    var i := Find(s, pat).value;
    if Occurs(s[..i], pat) {
      var j :| OccursAt(s[..i], pat, j);
      assert s[..i] + s[i..] == s;
      OccursInPrefix(s[..i], s[i..], pat, j);
    }
  }

  lemma EntrySurvives(block: string)
    requires EntryOf(block).Some? && !Occurs(block, "</Part>")
    ensures Survives(EntryOf(block).value.1)
  {
    hide Find, Occurs, TrimBoth, ParseUnsigned;
    var i := Find(block, "<" + "ETag" + ">").value + 6;
    var close := "</" + "ETag" + ">";
    assert close == "</ETag>";
    var len := Find(block[i..], close).value;
    var text := block[i..i + len];
    assert text == block[i..][..len];
    BeforeFirst(block[i..], close);
    WindowOccurs(block, i, i + len, "</Part>");
    var m, n := TrimFacts(text, IsWhitespace);
    WindowOccurs(text, m, n, "</ETag>");
    WindowOccurs(text, m, n, "</Part>");
    var p, q := TrimFacts(Trim(text), IsQuote);
    WindowOccurs(Trim(text), p, q, "</ETag>");
    WindowOccurs(Trim(text), p, q, "</Part>");
  }

  /** Every ETag the scanner reads out of any text survives. */
  lemma {:induction false} AllSurvive(xml: string)
    ensures forall i :: 0 <= i < |ParsedParts(xml)| ==> Survives(ParsedParts(xml)[i].1)
    decreases |xml|
  {
    hide Find, EntryOf, Survives;
    var start := Find(xml, "<Part>");
    if start.Some? {
      var after := xml[start.value + 6..];
      var end := Find(after, "</Part>");
      if end.Some? {
        BeforeFirst(after, "</Part>");
        if EntryOf(after[..end.value]).Some? { EntrySurvives(after[..end.value]); }
        AllSurvive(after[end.value + 7..]);
      }
    }
  }

  /** A printed list scans back to itself, in order, exactly when every ETag survives. */
  lemma PartListRoundTrip(parts: seq<Entry>)
    ensures ParsedParts(PrintList(parts)) == parts <==> forall i :: 0 <= i < |parts| ==> Survives(parts[i].1)
  {
    hide Survives, ParsedParts, PrintParts, OpenList, CloseList;
    if forall i :: 0 <= i < |parts| ==> Survives(parts[i].1) {
      PartsRead(OpenList(), parts);
    }
    AllSurvive(PrintList(parts));
  }
}
