/** The TNTP helpers of infrarisk/src/physical/transportation/utils.py: the
    metadata header reader and the conversion of a node path into link
    ids. The reader is given the file's lines as `splitlines` returns them,
    so a line holds no line break. */
module TranspoUtils {
  import opened Wrappers
  import opened Text

  const EndTag := "END OF METADATA"

  /** A metadata value: the stripped text after the tag, or, for the end
      tag, the 1-based number of the line it was read from. */
  datatype MetaValue = Value(text: string) | EndLine(line: nat)

  /** A line with its comment removed: everything before the first `~`. */
  function Uncommented(line: string): (r: string)
    ensures |r| <= |line| && r == line[..|r|]
    ensures '~' !in r
    ensures '~' !in line ==> r == line
  {
    var c := Find(line, '~');
    if c >= 0 then line[..c] else line
  }

  /** One line of the header: empty once its comment is gone, the end
      tag, or another tag with its raw value; `wellTagged` says whether a
      `<` came before the first `>`. */
  datatype Entry = Blank | End(wellTagged: bool) | Tagged(tag: string, value: string, wellTagged: bool)

  /** The tag is the text between the first `<` and the first `>`, the
      raw value the rest after that `>`. A line without a proper tag is sliced
      all the same, with Python's reading of index -1. */
  function ParseLine(line: string): (r: Entry)
    ensures r.Blank? <==> line == [] || line[0] == '~'
    ensures r.Tagged? ==> r.tag != EndTag
  {
    var l := Uncommented(line);
    if |l| == 0 then Blank
    else
      var s, e := Find(l, '<'), Find(l, '>');
      var tag := Slice(l, s + 1, e);
      if tag == EndTag then End(0 <= s < e) else Tagged(tag, SliceFrom(l, e + 1), 0 <= s < e)
  }

  function Parsed(lines: seq<string>): (es: seq<Entry>)
    ensures |es| == |lines|
    ensures forall i :: 0 <= i < |lines| ==> es[i] == ParseLine(lines[i])
  {
    seq(|lines|, i requires 0 <= i < |lines| => ParseLine(lines[i]))
  }

  /** The reading loop over parsed lines, the next of which is line
      `count + 1`: `ignoreMalformed` false is the loop as written, which
      stores a line without a proper tag after announcing that it ignores
      it; true skips such a line. */
  function Scan(es: seq<Entry>, count: nat, md: map<string, MetaValue>, ignoreMalformed: bool): map<string, MetaValue>
    decreases |es|
  {
    if es == [] then md
    else
      match es[0]
      case Blank => Scan(es[1..], count + 1, md, ignoreMalformed)
      case End(well) =>
        if ignoreMalformed && !well then Scan(es[1..], count + 1, md, ignoreMalformed)
        else md[EndTag := EndLine(count + 1)]
      case Tagged(tag, value, well) =>
        if ignoreMalformed && !well then Scan(es[1..], count + 1, md, ignoreMalformed)
        else Scan(es[1..], count + 1, md[tag := Value(Strip(value))], ignoreMalformed)
  }

  /** `readMetadata(lines)` as written. */
  function Metadata(lines: seq<string>): map<string, MetaValue> {
    Scan(Parsed(lines), 0, map[], false)
  }

  /** `readMetadata`: the loop with its line counter and early return. */
  method ReadMetadata(lines: seq<string>) returns (metadata: map<string, MetaValue>)
    ensures metadata == Metadata(lines)
  {
    ghost var es := Parsed(lines);
    metadata := map[];
    var lineNumber := 0;
    var i := 0;
    while i < |lines|
      invariant 0 <= i <= |lines| && lineNumber == i
      invariant Scan(es[i..], lineNumber, metadata, false) == Metadata(lines)
    {
      ScanAt(es, i, lineNumber, metadata);
      lineNumber := lineNumber + 1;
      var blank, metadataTag, metadataValue := CutLine(lines[i]);
      if blank {
        i := i + 1;
        continue;
      }
      if metadataTag == EndTag {
        metadata := metadata[EndTag := EndLine(lineNumber)];
        return;
      }
      metadata := metadata[metadataTag := Value(Strip(metadataValue))];
      i := i + 1;
    }
  }

  /** One step of the reading loop. */
  lemma ScanAt(es: seq<Entry>, i: nat, count: nat, md: map<string, MetaValue>)
    requires i < |es|
    ensures Scan(es[i..], count, md, false) ==
      match es[i]
      case Blank => Scan(es[i + 1..], count + 1, md, false)
      case End(_) => md[EndTag := EndLine(count + 1)]
      case Tagged(tag, value, _) => Scan(es[i + 1..], count + 1, md[tag := Value(Strip(value))], false)
  {
    assert es[i..][1..] == es[i + 1..];
  }

  /** The body of the reading loop up to the tag test: the comment is cut
      off, an empty line is reported as blank, and otherwise the text
      between the first `<` and the first `>` and the rest after that `>`
      are sliced out. */
  method CutLine(raw: string) returns (blank: bool, metadataTag: string, metadataValue: string)
    ensures blank <==> ParseLine(raw).Blank?
    ensures !blank && metadataTag == EndTag ==> ParseLine(raw).End?
    ensures !blank && metadataTag != EndTag ==>
      ParseLine(raw) == Tagged(metadataTag, metadataValue, ParseLine(raw).wellTagged)
  {
    var line := raw;
    var commentPos := Find(line, '~');
    if commentPos >= 0 {
      line := line[..commentPos];
    }
    assert line == Uncommented(raw);
    blank := |line| == 0;
    var startTagPos := Find(line, '<');
    var endTagPos := Find(line, '>');
    metadataTag := Slice(line, startTagPos + 1, endTagPos);
    metadataValue := SliceFrom(line, endTagPos + 1);
  }

  /** No entry but `End` stands for the end tag, as `ParseLine` ensures. */
  ghost predicate WellParsed(es: seq<Entry>) {
    forall i :: 0 <= i < |es| && es[i].Tagged? ==> es[i].tag != EndTag
  }

  /** The entry names the tag `key`. */
  predicate Names(e: Entry, key: string) {
    e.Tagged? && e.tag == key
  }

  lemma Shifted<T>(s: seq<T>)
    requires s != []
    ensures forall i :: 0 <= i < |s| - 1 ==> s[1..][i] == s[i + 1]
  {
  }

  /** Reading stops at the first end tag: its key holds that line's
      1-based number and nothing after it is read. */
  lemma {:induction false} EndTagStops(es: seq<Entry>, count: nat, md: map<string, MetaValue>, j: nat)
    requires j < |es| && es[j].End?
    requires forall i :: 0 <= i < j ==> !es[i].End?
    ensures Scan(es, count, md, false) == Scan(es[..j + 1], count, md, false)
    ensures EndTag in Scan(es, count, md, false)
    ensures Scan(es, count, md, false)[EndTag] == EndLine(count + j + 1)
    decreases j
  {
    if j > 0 {
      assert es[1..][..j] == es[..j + 1][1..];
      assert es[..j + 1][0] == es[0];
      assert !es[0].End?;
      Shifted(es);
      match es[0]
      case Blank =>
        EndTagStops(es[1..], count + 1, md, j - 1);
      case Tagged(tag, value, well) =>
        EndTagStops(es[1..], count + 1, md[tag := Value(Strip(value))], j - 1);
    }
  }

  /** Without an end tag the key is absent from the result. */
  lemma {:induction false} NoEndTagNoKey(es: seq<Entry>, count: nat, md: map<string, MetaValue>)
    requires forall i :: 0 <= i < |es| ==> !es[i].End?
    requires WellParsed(es) && EndTag !in md
    ensures EndTag !in Scan(es, count, md, false)
    decreases |es|
  {
    if es != [] {
      assert !es[0].End?;
      Shifted(es);
      match es[0]
      case Blank =>
        NoEndTagNoKey(es[1..], count + 1, md);
      case Tagged(tag, value, well) =>
        assert tag != EndTag;
        NoEndTagNoKey(es[1..], count + 1, md[tag := Value(Strip(value))]);
    }
  }

  /** The first end tag of a file fixes the end line: its key holds that
      line's 1-based number. */
  lemma EndLineAt(lines: seq<string>, j: nat)
    requires j < |lines| && ParseLine(lines[j]).End?
    requires forall i :: 0 <= i < j ==> !ParseLine(lines[i]).End?
    ensures EndTag in Metadata(lines) && Metadata(lines)[EndTag] == EndLine(j + 1)
  {
    var es := Parsed(lines);
    assert es[j].End?;
    assert forall i :: 0 <= i < j ==> !es[i].End? by {
      forall i | 0 <= i < j
        ensures !es[i].End?
      {
        assert es[i] == ParseLine(lines[i]);
      }
    }
    EndTagStops(es, 0, map[], j);
  }

  /** A file without an end tag has no end line. */
  lemma NoEndLine(lines: seq<string>)
    requires forall i :: 0 <= i < |lines| ==> !ParseLine(lines[i]).End?
    ensures EndTag !in Metadata(lines)
  {
    var es := Parsed(lines);
    forall i | 0 <= i < |es|
      ensures !es[i].End? && (es[i].Tagged? ==> es[i].tag != EndTag)
    {
      assert es[i] == ParseLine(lines[i]);
    }
    NoEndTagNoKey(es, 0, map[]);
  }

  /** The result with the end line moved by `k`. */
  function ShiftEnd(md: map<string, MetaValue>, k: nat): map<string, MetaValue> {
    if EndTag in md && md[EndTag].EndLine? then md[EndTag := EndLine(md[EndTag].line + k)] else md
  }

  /** Reading from a later line number changes only the end line. */
  lemma {:induction false} ScanShift(es: seq<Entry>, count: nat, k: nat, md: map<string, MetaValue>)
    requires WellParsed(es) && EndTag !in md
    ensures Scan(es, count + k, md, false) == ShiftEnd(Scan(es, count, md, false), k)
    decreases |es|
  {
    if es != [] {
      Shifted(es);
      match es[0]
      case Blank =>
        ScanShift(es[1..], count + 1, k, md);
      case End(well) =>
      case Tagged(tag, value, well) =>
        assert tag != EndTag;
        ScanShift(es[1..], count + 1, k, md[tag := Value(Strip(value))]);
    }
  }

  /** An empty line is skipped but counted: putting one in front of the
      file moves the recorded end line down by one and changes nothing
      else. */
  lemma EmptyLineCounted(lines: seq<string>)
    ensures Metadata([""] + lines) == ShiftEnd(Metadata(lines), 1)
  {
    var es := Parsed(lines);
    ParsedCons("", lines);
    assert ParseLine("") == Blank;
    assert Scan(Parsed([""] + lines), 0, map[], false) == Scan(es, 1, map[], false);
    assert WellParsed(es) by {
      forall i | 0 <= i < |es| && es[i].Tagged?
        ensures es[i].tag != EndTag
      {
        assert es[i] == ParseLine(lines[i]);
      }
    }
    ScanShift(es, 0, 1, map[]);
  }

  lemma ParsedCons(line: string, lines: seq<string>)
    ensures Parsed([line] + lines) == [ParseLine(line)] + Parsed(lines)
    ensures Parsed([line] + lines)[1..] == Parsed(lines)
  {
    assert Parsed([line] + lines) == [ParseLine(line)] + Parsed(lines);
  }

  /** Whatever follows a `~` is ignored. */
  lemma CommentIgnored(text: string, comment: string, comment': string)
    requires '~' !in text
    ensures ParseLine(text + "~" + comment) == ParseLine(text + "~" + comment')
  {
    CommentCut(text, comment);
    CommentCut(text, comment');
  }

  lemma CommentCut(text: string, comment: string)
    requires '~' !in text
    ensures Uncommented(text + "~" + comment) == text
  {
    var line := text + "~" + comment;
    assert line[|text|] == '~';
    assert line[..|text|] == text;
  }

  /** How `<tag>value` is cut: no comment, `<` first, `>` right after the
      tag. */
  lemma TagParts(tag: string, value: string)
    requires '<' !in tag && '>' !in tag && '~' !in tag && '~' !in value
    ensures var line := "<" + tag + ">" + value;
      Uncommented(line) == line && Find(line, '<') == 0 && Find(line, '>') == |tag| + 1
      && Slice(line, 1, |tag| + 1) == tag && SliceFrom(line, |tag| + 2) == value
  {
    var line := "<" + tag + ">" + value;
    assert '~' !in line by {
      assert forall i :: 0 <= i < |line| ==> line[i] == '<' || line[i] == '>' || line[i] in tag || line[i] in value;
    }
    assert line[0] == '<' && line[..0] == [];
    assert line[|tag| + 1] == '>';
    assert line[..|tag| + 1] == "<" + tag;
    assert '>' !in "<" + tag by {
      assert forall i :: 0 < i < |tag| + 1 ==> ("<" + tag)[i] == tag[i - 1];
    }
    assert line[1..|tag| + 1] == tag;
    assert line[|tag| + 2..] == value;
  }

  /** A well-formed line `<tag>value` yields its tag and its raw value. */
  lemma TaggedLine(tag: string, value: string)
    requires '<' !in tag && '>' !in tag && '~' !in tag && '~' !in value && tag != EndTag
    ensures ParseLine("<" + tag + ">" + value) == Tagged(tag, value, true)
  {
    TagParts(tag, value);
  }

  /** A key no later line names keeps its value. */
  lemma {:induction false} KeyKept(es: seq<Entry>, count: nat, md: map<string, MetaValue>, key: string)
    requires key in md && key != EndTag
    requires forall i :: 0 <= i < |es| ==> !Names(es[i], key)
    ensures key in Scan(es, count, md, false) && Scan(es, count, md, false)[key] == md[key]
    decreases |es|
  {
    if es != [] {
      assert !Names(es[0], key);
      Shifted(es);
      match es[0]
      case Blank =>
        KeyKept(es[1..], count + 1, md, key);
      case End(well) =>
      case Tagged(tag, value, well) =>
        KeyKept(es[1..], count + 1, md[tag := Value(Strip(value))], key);
    }
  }

  /** A file whose first line is `<tag>value`, with a tag other than the
      end tag that no later line repeats, records the stripped value under
      that tag. */
  lemma FirstTagRecorded(tag: string, value: string, rest: seq<string>)
    requires '<' !in tag && '>' !in tag && '~' !in tag && '~' !in value && tag != EndTag
    requires forall i :: 0 <= i < |rest| ==> !Names(ParseLine(rest[i]), tag)
    ensures tag in Metadata(["<" + tag + ">" + value] + rest)
    ensures Metadata(["<" + tag + ">" + value] + rest)[tag] == Value(Strip(value))
  {
    TaggedLine(tag, value);
    ParsedCons("<" + tag + ">" + value, rest);
    KeyKept(Parsed(rest), 1, map[tag := Value(Strip(value))], tag);
  }

  /** The line `abc`: no tag, sliced to the key `ab`. */
  lemma UntaggedLine()
    ensures ParseLine("abc") == Tagged("ab", "abc", false)
  {
    assert Find("abc", '~') == -1;
    assert Find("abc", '<') == -1;
    assert Find("abc", '>') == -1;
    assert Slice("abc", 0, -1) == "ab";
  }

  /** The end-tag line of a header. */
  lemma EndLineParsed()
    ensures ParseLine("<" + EndTag + ">") == End(true)
  {
    assert '<' !in EndTag && '>' !in EndTag && '~' !in EndTag;
    TagParts(EndTag, "");
    assert "<" + EndTag + ">" + "" == "<" + EndTag + ">";
  }

  /** The loop as written announces that it ignores a line without a
      proper tag, yet stores it: `abc` before the end tag adds the key
      `ab`, the slice `line[0:-1]`. */
  lemma MalformedLineStored()
    ensures "ab" in Metadata(["abc", "<" + EndTag + ">"])
    ensures Metadata(["abc", "<" + EndTag + ">"])["ab"] == Value(Strip("abc"))
  {
    MalformedFileParsed();
    TaggedThenEnd("ab", "abc", false, false);
    assert "ab" != EndTag;
  }

  /** A tagged line followed by the end tag. */
  lemma TaggedThenEnd(tag: string, value: string, well: bool, ignoreMalformed: bool)
    ensures Scan([Tagged(tag, value, well), End(true)], 0, map[], ignoreMalformed)
         == if ignoreMalformed && !well then map[EndTag := EndLine(2)]
            else map[tag := Value(Strip(value))][EndTag := EndLine(2)]
  {
    assert [Tagged(tag, value, well), End(true)][1..] == [End(true)];
  }

  lemma MalformedFileParsed()
    ensures Parsed(["abc", "<" + EndTag + ">"]) == [Tagged("ab", "abc", false), End(true)]
  {
    UntaggedLine();
    EndLineParsed();
    ParsedCons("abc", ["<" + EndTag + ">"]);
    ParsedCons("<" + EndTag + ">", []);
  }

  /** The reading the message promises: lines without a proper tag are
      skipped. */
  function MetadataIgnoringMalformed(lines: seq<string>): map<string, MetaValue> {
    Scan(Parsed(lines), 0, map[], true)
  }

  /** With malformed lines skipped, every key but the end tag is the tag
      of some well-tagged line of the file. */
  lemma {:induction false} IgnoredKeysWellTagged(es: seq<Entry>, count: nat, md: map<string, MetaValue>)
    ensures forall k :: k in Scan(es, count, md, true) && k != EndTag && k !in md ==>
      exists i :: 0 <= i < |es| && Names(es[i], k) && es[i].wellTagged
    decreases |es|
  {
    if es != [] {
      var rest := es[1..];
      Shifted(es);
      match es[0]
      case Blank =>
        IgnoredKeysWellTagged(rest, count + 1, md);
      case End(well) =>
        if !well {
          IgnoredKeysWellTagged(rest, count + 1, md);
        }
      case Tagged(tag, value, well) =>
        if !well {
          IgnoredKeysWellTagged(rest, count + 1, md);
        } else {
          IgnoredKeysWellTagged(rest, count + 1, md[tag := Value(Strip(value))]);
        }
    }
  }

  /** The corrected reading of the same file stores no key for the
      malformed line. */
  lemma MalformedLineIgnored()
    ensures MetadataIgnoringMalformed(["abc", "<" + EndTag + ">"]) == map[EndTag := EndLine(2)]
  {
    MalformedFileParsed();
    TaggedThenEnd("ab", "abc", false, true);
  }

  // ---------------------------------------------------------------------
  // path2linkTuple

  /** The link id between two consecutive nodes of a path. */
  function LinkId(tail: string, head: string): string {
    "(" + tail + "," + head + ")"
  }

  /** The link ids of a node list: one per consecutive pair, in order. */
  function LinkIds(nodes: seq<string>): (r: seq<string>)
    requires |nodes| >= 1
    ensures |r| == |nodes| - 1
    ensures forall i :: 0 <= i < |r| ==> r[i] == LinkId(nodes[i], nodes[i + 1])
  {
    if |nodes| == 1 then [] else LinkIds(nodes[..|nodes| - 1]) + [LinkId(nodes[|nodes| - 2], nodes[|nodes| - 1])]
  }

  /** `path2linkTuple(pathString)`: the braces cut off, the rest split on
      commas, and a link id for each consecutive pair of nodes. */
  method Path2LinkTuple(pathString: string) returns (links: seq<string>)
    ensures links == LinkIds(Split(Slice(pathString, 1, -1), ','))
  {
    var nodeList := Split(Slice(pathString, 1, -1), ',');
    links := [];
    var prevNode := nodeList[0];
    var i := 1;
    while i < |nodeList|
      invariant 1 <= i <= |nodeList|
      invariant prevNode == nodeList[i - 1]
      invariant links == LinkIds(nodeList[..i])
    {
      assert nodeList[..i + 1][..i] == nodeList[..i];
      var curNode := nodeList[i];
      links := links + [LinkId(prevNode, curNode)];
      prevNode := curNode;
      i := i + 1;
    }
    assert nodeList[..i] == nodeList;
  }

  /** A path written `[n1,...,nk]` over node names without commas gives
      k - 1 links, each from one node to the next, so consecutive links
      share a node. */
  lemma PathLinks(nodes: seq<string>)
    requires |nodes| >= 1
    requires forall i :: 0 <= i < |nodes| ==> ',' !in nodes[i]
    ensures var links := LinkIds(Split(Slice("[" + Join(nodes, ',') + "]", 1, -1), ','));
      |links| == |nodes| - 1
      && (forall i :: 0 <= i < |links| ==> links[i] == LinkId(nodes[i], nodes[i + 1]))
  {
    var body := Join(nodes, ',');
    var s := "[" + body + "]";
    assert Slice(s, 1, -1) == body by {
      assert s[1..|s| - 1] == body;
    }
    SplitJoin(nodes, ',');
  }
}
