/**
 * The export of a scenario's material section: where the section begins and ends, and what is written out. A text is
 * the sequence of its lines, none of which contains a line break.
 */
module ExportMaterials {
  import opened Prelude
  import opened FenceScanner

  datatype Bounds = Bounds(start: nat, end: nat)

  /** What makes a line a heading or a label that must not appear between the headings, and
      what an export begins with. */
  datatype Labels = Labels(materials: string -> bool, questions: string -> bool, unexpected: string -> bool,
      preamble: string)

  // Lines of Markdown

  /** White space as `str.strip` and `\s` know it. */
  predicate IsSpace(c: char) {
    var u := c as int;
    || 0x09 <= u <= 0x0D || 0x1C <= u <= 0x20 || u == 0x85 || u == 0xA0 || u == 0x1680
    || 0x2000 <= u <= 0x200A || u == 0x2028 || u == 0x2029 || u == 0x202F || u == 0x205F || u == 0x3000
  }

  predicate AllSpace(s: string) {
    forall i | 0 <= i < |s| :: IsSpace(s[i])
  }

  function StripLeft(s: string): string {
    if s != [] && IsSpace(s[0]) then StripLeft(s[1..]) else s
  }

  function StripRight(s: string): string {
    if s != [] && IsSpace(s[|s| - 1]) then StripRight(s[..|s| - 1]) else s
  }

  function Strip(s: string): string {
    StripRight(StripLeft(s))
  }

  /** How many times `c` stands at the beginning of `s`. */
  function Run(s: string, c: char): (n: nat)
    ensures n <= |s|
  {
    if s != [] && s[0] == c then 1 + Run(s[1..], c) else 0
  }

  function Repeat(c: char, n: nat): (s: string)
    ensures |s| == n
  {
    if n == 0 then [] else [c] + Repeat(c, n - 1)
  }

  predicate Blank(s: string) {
    forall i | 0 <= i < |s| :: s[i] == ' ' || s[i] == '\t'
  }

  /** A fence opens after at most three spaces with a run of at least three backticks or tildes. */
  function LeadOf(line: string): Lead {
    var indent := Run(line, ' ');
    var rest := line[indent..];
    if indent > 3 || rest == [] || (rest[0] != '`' && rest[0] != '~') || Run(rest, rest[0]) < 3 then Text
    else if rest[0] == '`' && '`' in rest[Run(rest, '`')..] then Refused
    else Opens(Fence(rest[0], Run(rest, rest[0])))
  }

  /** A fence closes with at least as many of its characters as opened it, and then only blanks. */
  predicate Closes(line: string, fence: Fence) {
    var indent := Run(line, ' ');
    var rest := line[indent..];
    indent <= 3 && Run(rest, fence.mark) >= fence.length && Blank(rest[Run(rest, fence.mark)..])
  }

  const MARKDOWN: Syntax := Syntax(LeadOf, Closes)

  /** ` {0,3}#{1,2}\s` at the beginning of the line. */
  predicate IsSection(line: string) {
    var indent := Run(line, ' ');
    var rest := line[indent..];
    var hashes := Run(rest, '#');
    indent <= 3 && 1 <= hashes <= 2 && hashes < |rest| && IsSpace(rest[hashes])
  }

  /** The workspace's own headings and labels; the fixed text an export begins with is left open. */
  function Workspace(preamble: string): Labels {
    Labels(
      line => Strip(line) == "## 서비스에 등록할 자료",
      line => Strip(line) == "## 시험 질문과 확인 기준",
      line => IsSection(line) || "**평가자 확인" <= Strip(line) || "**사용자 입력" <= Strip(line) || "### 질문 " <= Strip(line),
      preamble)
  }

  // What the line functions accept

  lemma {:induction false} RunSplits(s: string, c: char)
    ensures s == Repeat(c, Run(s, c)) + s[Run(s, c)..]
    ensures Run(s, c) < |s| ==> s[Run(s, c)] != c
  {
    if s != [] && s[0] == c {
      RunSplits(s[1..], c);
    }
  }

  lemma {:induction false} RunOfRepeat(c: char, n: nat, rest: string)
    requires rest != [] ==> rest[0] != c
    ensures Run(Repeat(c, n) + rest, c) == n
    ensures (Repeat(c, n) + rest)[n..] == rest
  {
    if n == 0 {
      assert Repeat(c, n) + rest == rest;
    } else {
      RunOfRepeat(c, n - 1, rest);
      assert (Repeat(c, n) + rest)[1..] == Repeat(c, n - 1) + rest;
    }
  }

  /** A line read as spaces, a run of `mark`, and the rest. */
  lemma ReadAsRuns(line: string, mark: char)
    ensures var rest := line[Run(line, ' ')..];
            line == Repeat(' ', Run(line, ' ')) + Repeat(mark, Run(rest, mark)) + rest[Run(rest, mark)..]
    ensures var rest := line[Run(line, ' ')..];
            Run(rest, mark) < |rest| ==> rest[Run(rest, mark)] != mark
  {
    var rest := line[Run(line, ' ')..];
    RunSplits(line, ' ');
    RunSplits(rest, mark);
    Regrouped(Repeat(' ', Run(line, ' ')), Repeat(mark, Run(rest, mark)), rest[Run(rest, mark)..]);
  }

  lemma Regrouped(a: string, b: string, c: string)
    ensures a + (b + c) == a + b + c
  {
  }

  lemma RunsReadBack(indent: nat, mark: char, length: nat, tail: string)
    requires mark != ' ' && length > 0 && (tail != [] ==> tail[0] != mark)
    ensures var line := Repeat(' ', indent) + Repeat(mark, length) + tail;
            && Run(line, ' ') == indent
            && line[indent..] == Repeat(mark, length) + tail
            && Run(line[indent..], mark) == length
            && line[indent..][length..] == tail
            && line[indent..][0] == mark
  {
    var rest := Repeat(mark, length) + tail;
    Regrouped(Repeat(' ', indent), Repeat(mark, length), tail);
    RunOfRepeat(' ', indent, rest);
    RunOfRepeat(mark, length, tail);
  }

  /** The opening pattern with its groups: indentation, the whole run of fence characters, and the info string. */
  predicate OpensAs(line: string, indent: nat, fence: Fence, info: string) {
    && indent <= 3 && fence.length >= 3 && (fence.mark == '`' || fence.mark == '~')
    && line == Repeat(' ', indent) + Repeat(fence.mark, fence.length) + info
    && (info != [] ==> info[0] != fence.mark)
  }

  lemma OpensAsDeterminesLead(line: string, indent: nat, fence: Fence, info: string)
    requires OpensAs(line, indent, fence, info)
    ensures LeadOf(line) == if fence.mark == '`' && '`' in info then Refused else Opens(fence)
  {
    RunsReadBack(indent, fence.mark, fence.length, info);
  }

  /** A line that is not text was read by the opening pattern. */
  lemma LeadComesFromOpening(line: string) returns (indent: nat, fence: Fence, info: string)
    requires !LeadOf(line).Text?
    ensures OpensAs(line, indent, fence, info)
  {
    indent := Run(line, ' ');
    var rest := line[indent..];
    fence := Fence(rest[0], Run(rest, rest[0]));
    info := rest[fence.length..];
    ReadAsRuns(line, rest[0]);
  }

  /** A line is refused, opens a fence or is text exactly as the opening pattern and its info string say. */
  lemma LeadIsExact(line: string, fence: Fence)
    ensures LeadOf(line) == Opens(fence) <==>
              exists indent: nat, info :: OpensAs(line, indent, fence, info) && !(fence.mark == '`' && '`' in info)
    ensures LeadOf(line) == Refused <==>
              exists indent: nat, length: nat, info :: OpensAs(line, indent, Fence('`', length), info) && '`' in info
  {
    if !LeadOf(line).Text? {
      var indent, found, info := LeadComesFromOpening(line);
      OpensAsDeterminesLead(line, indent, found, info);
      assert found.mark == '`' ==> OpensAs(line, indent, Fence('`', found.length), info);
    }
    forall indent: nat, info | OpensAs(line, indent, fence, info)
      ensures LeadOf(line) == if fence.mark == '`' && '`' in info then Refused else Opens(fence)
    {
      OpensAsDeterminesLead(line, indent, fence, info);
    }
    forall indent: nat, length: nat, info | OpensAs(line, indent, Fence('`', length), info) && '`' in info
      ensures LeadOf(line) == Refused
    {
      OpensAsDeterminesLead(line, indent, Fence('`', length), info);
    }
  }

  predicate ClosesAs(line: string, fence: Fence, indent: nat, length: nat, tail: string) {
    && indent <= 3 && length >= fence.length
    && line == Repeat(' ', indent) + Repeat(fence.mark, length) + tail && Blank(tail)
  }

  /** A line closes a fence exactly if the closing pattern for its character and length matches the whole line. */
  lemma ClosingIsExact(line: string, fence: Fence)
    requires fence.length >= 3 && (fence.mark == '`' || fence.mark == '~')
    ensures Closes(line, fence) <==>
            exists indent: nat, length: nat, tail :: ClosesAs(line, fence, indent, length, tail)
  {
    if Closes(line, fence) {
      var rest := line[Run(line, ' ')..];
      ReadAsRuns(line, fence.mark);
      assert ClosesAs(line, fence, Run(line, ' '), Run(rest, fence.mark), rest[Run(rest, fence.mark)..]);
    }
    forall indent: nat, length: nat, tail | ClosesAs(line, fence, indent, length, tail)
      ensures Closes(line, fence)
    {
      RunsReadBack(indent, fence.mark, length, tail);
    }
  }

  /** Stripping removes exactly the white space at both ends. */
  lemma StripTrims(s: string) returns (left: string, right: string)
    ensures s == left + Strip(s) + right && AllSpace(left) && AllSpace(right)
    ensures Strip(s) != [] ==> !IsSpace(Strip(s)[0]) && !IsSpace(Strip(s)[|Strip(s)| - 1])
  {
    left := StripLeftTrims(s);
    right := StripRightTrims(StripLeft(s));
  }

  lemma {:induction false} StripLeftTrims(s: string) returns (left: string)
    ensures s == left + StripLeft(s) && AllSpace(left)
    ensures StripLeft(s) != [] ==> !IsSpace(StripLeft(s)[0])
  {
    left := [];
    if s != [] && IsSpace(s[0]) {
      left := StripLeftTrims(s[1..]);
      left := [s[0]] + left;
      assert s == [s[0]] + s[1..];
    }
  }

  lemma {:induction false} StripRightTrims(s: string) returns (right: string)
    ensures s == StripRight(s) + right && AllSpace(right)
    ensures StripRight(s) != [] ==> !IsSpace(StripRight(s)[|StripRight(s)| - 1]) && StripRight(s)[0] == s[0]
  {
    right := [];
    if s != [] && IsSpace(s[|s| - 1]) {
      right := StripRightTrims(s[..|s| - 1]);
      right := right + [s[|s| - 1]];
    }
  }

  // Section bounds

  function Marked(outside: seq<Outside>, marks: string -> bool): seq<nat> {
    if outside == [] then []
    else (if marks(outside[0].line) then [outside[0].index] else []) + Marked(outside[1..], marks)
  }

  predicate NoneBetween(outside: seq<Outside>, bounds: Bounds, unexpected: string -> bool) {
    forall i | 0 <= i < |outside| && bounds.start < outside[i].index < bounds.end :: !unexpected(outside[i].line)
  }

  function BoundsOf(outside: seq<Outside>, labels: Labels): Result<Bounds, Error> {
    var starts, ends := Marked(outside, labels.materials), Marked(outside, labels.questions);
    if |starts| != 1 || |ends| != 1 then Err(SectionCount)
    else if ends[0] <= starts[0] then Err(SectionOrder)
    else if NoneBetween(outside, Bounds(starts[0], ends[0]), labels.unexpected) then Ok(Bounds(starts[0], ends[0]))
    else Err(UnexpectedLabel)
  }

  function BoundsIn(syntax: Syntax, lines: seq<string>, labels: Labels): Result<Bounds, Error> {
    match OutsideOf(syntax, lines)
    case Ok(outside) => BoundsOf(outside, labels)
    case Err(error) => Err(error)
  }

  /** `section_bounds`. */
  method SectionBounds(lines: seq<string>, labels: Labels) returns (r: Result<Bounds, Error>)
    ensures r == BoundsIn(MARKDOWN, lines, labels)
  {
    var scanned := OutsideFenceLines(MARKDOWN, lines);
    if scanned.Err? {
      return Err(scanned.error);
    }
    var outside := scanned.value;
    var starts, ends := Marked(outside, labels.materials), Marked(outside, labels.questions);
    if |starts| != 1 || |ends| != 1 {
      return Err(SectionCount);
    }
    var start, end := starts[0], ends[0];
    if end <= start {
      return Err(SectionOrder);
    }
    for i := 0 to |outside|
      invariant forall j | 0 <= j < i && start < outside[j].index < end :: !labels.unexpected(outside[j].line)
    {
      if start < outside[i].index < end && labels.unexpected(outside[i].line) {
        return Err(UnexpectedLabel);
      }
    }
    return Ok(Bounds(start, end));
  }

  ghost predicate OnlyAt(outside: seq<Outside>, marks: string -> bool, index: nat) {
    exists k :: 0 <= k < |outside| && OnlyPosition(outside, marks, k) && outside[k].index == index
  }

  ghost predicate OnlyPosition(outside: seq<Outside>, marks: string -> bool, k: nat)
    requires k < |outside|
  {
    marks(outside[k].line) && forall i | 0 <= i < |outside| && i != k :: !marks(outside[i].line)
  }

  lemma {:induction false} MarkedNone(outside: seq<Outside>, marks: string -> bool)
    ensures Marked(outside, marks) == [] <==> forall i | 0 <= i < |outside| :: !marks(outside[i].line)
  {
    if outside != [] {
      MarkedNone(outside[1..], marks);
      assert forall i | 1 <= i < |outside| :: outside[i] == outside[1..][i - 1];
    }
  }

  lemma {:induction false} MarkedOnce(outside: seq<Outside>, marks: string -> bool, index: nat)
    ensures Marked(outside, marks) == [index] <==> OnlyAt(outside, marks, index)
  {
    if outside != [] {
      var rest := outside[1..];
      MarkedOnce(rest, marks, index);
      MarkedNone(rest, marks);
      assert forall i | 1 <= i < |outside| :: outside[i] == rest[i - 1];
      if marks(outside[0].line) {
        var here := outside[0].index;
        assert Marked(outside, marks) == [here] + Marked(rest, marks);
        if Marked(outside, marks) == [index] {
          assert Marked(outside, marks)[0] == here && |Marked(rest, marks)| == 0;
          assert OnlyPosition(outside, marks, 0);
        }
        if OnlyAt(outside, marks, index) {
          var k :| 0 <= k < |outside| && OnlyPosition(outside, marks, k) && outside[k].index == index;
          assert k == 0;
        }
      } else {
        forall k: nat | k < |rest|
          ensures OnlyPosition(outside, marks, k + 1) <==> OnlyPosition(rest, marks, k)
        {
          if OnlyPosition(outside, marks, k + 1) {
            assert forall i | 0 <= i < |rest| && i != k :: rest[i] == outside[i + 1];
          }
        }
        if OnlyAt(outside, marks, index) {
          var k :| 0 <= k < |outside| && OnlyPosition(outside, marks, k) && outside[k].index == index;
          assert OnlyPosition(rest, marks, k - 1);
        }
        if OnlyAt(rest, marks, index) {
          var k :| 0 <= k < |rest| && OnlyPosition(rest, marks, k) && rest[k].index == index;
          assert OnlyPosition(outside, marks, k + 1);
        }
      }
    }
  }

  /** The bounds are the one heading of each kind outside fences, in order, with no label between them. */
  lemma BoundsAreExact(outside: seq<Outside>, labels: Labels, bounds: Bounds)
    ensures BoundsOf(outside, labels) == Ok(bounds) <==>
              && OnlyAt(outside, labels.materials, bounds.start)
              && OnlyAt(outside, labels.questions, bounds.end)
              && bounds.start < bounds.end
              && NoneBetween(outside, bounds, labels.unexpected)
  {
    MarkedOnce(outside, labels.materials, bounds.start);
    MarkedOnce(outside, labels.questions, bounds.end);
  }

  // Extraction

  function Join(lines: seq<string>): string {
    if lines == [] then []
    else if |lines| == 1 then lines[0]
    else lines[0] + "\n" + Join(lines[1..])
  }

  predicate AllApproved(lines: seq<string>, approved: string -> bool) {
    forall i | 0 <= i < |lines| :: approved(lines[i])
  }

  function Body(lines: seq<string>, bounds: Bounds): string
    requires bounds.start < bounds.end <= |lines|
  {
    Strip(Join(lines[bounds.start + 1..bounds.end]))
  }

  function Extract(syntax: Syntax, lines: seq<string>, approved: string -> bool, labels: Labels)
      : Result<string, Error> {
    if !AllApproved(lines, approved) then Err(UnapprovedEmail)
    else match BoundsIn(syntax, lines, labels)
      case Err(error) => Err(error)
      case Ok(bounds) =>
        BoundsStayInside(syntax, lines, labels);
        if Body(lines, bounds) == [] then Err(EmptyMaterials) else Ok(labels.preamble + Body(lines, bounds) + "\n")
  }

  /** `extract_materials`; `approved` says of a line that every address in it is on the list. */
  method ExtractMaterials(lines: seq<string>, approved: string -> bool, labels: Labels)
      returns (r: Result<string, Error>)
    ensures r == Extract(MARKDOWN, lines, approved, labels)
  {
    for i := 0 to |lines|
      invariant AllApproved(lines[..i], approved)
    {
      assert lines[..i + 1] == lines[..i] + [lines[i]];
      if !approved(lines[i]) {
        return Err(UnapprovedEmail);
      }
    }
    assert lines[..|lines|] == lines;
    var bounds := SectionBounds(lines, labels);
    if bounds.Err? {
      return Err(bounds.error);
    }
    BoundsStayInside(MARKDOWN, lines, labels);
    var body := Strip(Join(lines[bounds.value.start + 1..bounds.value.end]));
    if body == [] {
      return Err(EmptyMaterials);
    }
    return Ok(labels.preamble + body + "\n");
  }

  /** What is reported are lines of the text with their positions, in order. */
  lemma {:induction false} ScanQuotes(syntax: Syntax, lines: seq<string>, index: nat, active: Option<Fence>)
    requires Scan(syntax, lines, index, active).Ok?
    ensures var outside := Scan(syntax, lines, index, active).value;
            && (forall i | 0 <= i < |outside| ::
                  index <= outside[i].index < index + |lines| && outside[i].line == lines[outside[i].index - index])
            && (forall i, j | 0 <= i < j < |outside| :: outside[i].index < outside[j].index)
    decreases |lines|
  {
    if lines == [] {
    } else if active.Some? {
      ScanQuotes(syntax, lines[1..], index + 1, if syntax.closes(lines[0], active.value) then None else active);
    } else {
      match syntax.lead(lines[0]) {
        case Text =>
          ScanQuotes(syntax, lines[1..], index + 1, None);
        case Opens(fence) =>
          ScanQuotes(syntax, lines[1..], index + 1, Some(fence));
        case Refused =>
      }
    }
  }

  lemma BoundsStayInside(syntax: Syntax, lines: seq<string>, labels: Labels)
    ensures BoundsIn(syntax, lines, labels).Ok? ==>
              var bounds := BoundsIn(syntax, lines, labels).value;
              bounds.start < bounds.end < |lines|
  {
    if BoundsIn(syntax, lines, labels).Ok? {
      ScanQuotes(syntax, lines, 0, None);
      BoundsAreExact(OutsideOf(syntax, lines).value, labels, BoundsIn(syntax, lines, labels).value);
    }
  }

  lemma {:induction false} MarkedJoin(a: seq<Outside>, b: seq<Outside>, marks: string -> bool)
    ensures Marked(a + b, marks) == Marked(a, marks) + Marked(b, marks)
  {
    if a == [] {
      assert a + b == b;
    } else {
      assert (a + b)[0] == a[0] && (a + b)[1..] == a[1..] + b;
      MarkedJoin(a[1..], b, marks);
      var first := if marks(a[0].line) then [a[0].index] else [];
      assert first + (Marked(a[1..], marks) + Marked(b, marks)) == first + Marked(a[1..], marks) + Marked(b, marks);
    }
  }

  ghost predicate HasHeading(outside: seq<Outside>, labels: Labels) {
    exists i :: 0 <= i < |outside| && (labels.materials(outside[i].line) || labels.questions(outside[i].line))
  }

  /** Lines after the end of the section matter only if one of them is a heading again. */
  lemma BoundsWithMore(a: seq<Outside>, b: seq<Outside>, labels: Labels)
    requires BoundsOf(a, labels).Ok?
    requires forall i | 0 <= i < |b| :: b[i].index > BoundsOf(a, labels).value.end
    ensures BoundsOf(a + b, labels) == if HasHeading(b, labels) then Err(SectionCount) else BoundsOf(a, labels)
  {
    MarkedJoin(a, b, labels.materials);
    MarkedJoin(a, b, labels.questions);
    MarkedNone(b, labels.materials);
    MarkedNone(b, labels.questions);
    if !HasHeading(b, labels) {
      var bounds := BoundsOf(a, labels).value;
      assert NoneBetween(a + b, bounds, labels.unexpected);
    }
  }

  /**
   * What follows an extractable text changes nothing, unless it breaks the export: an address that is not approved,
   * a fence the scanner stops at, or another of the two headings outside a fence.
   */
  lemma ExtractIgnoresWhatFollows(syntax: Syntax, lines: seq<string>, more: seq<string>, approved: string -> bool,
                                  labels: Labels)
    requires Extract(syntax, lines, approved, labels).Ok?
    ensures Extract(syntax, lines + more, approved, labels)
         == if !AllApproved(more, approved) then Err(UnapprovedEmail)
            else match OutsideOf(syntax, more)
                 case Err(error) => Err(error)
                 case Ok(outside) =>
                   if HasHeading(outside, labels) then Err(SectionCount) else Extract(syntax, lines, approved, labels)
  {
    ApprovedTogether(lines, more, approved);
    BoundsStayInside(syntax, lines, labels);
    ScanJoins(syntax, lines, more);
    if OutsideOf(syntax, more).Ok? {
      var a, b := OutsideOf(syntax, lines).value, OutsideOf(syntax, more).value;
      var moved := Moved(b, |lines|);
      BoundsWithMore(a, moved, labels);
      assert HasHeading(moved, labels) <==> HasHeading(b, labels) by {
        assert forall i | 0 <= i < |b| :: moved[i].line == b[i].line;
      }
      var bounds := BoundsIn(syntax, lines, labels).value;
      assert (lines + more)[bounds.start + 1..bounds.end] == lines[bounds.start + 1..bounds.end];
    }
  }

  lemma ApprovedTogether(a: seq<string>, b: seq<string>, approved: string -> bool)
    ensures AllApproved(a + b, approved) <==> AllApproved(a, approved) && AllApproved(b, approved)
  {
    if AllApproved(a + b, approved) {
      assert forall i | 0 <= i < |a| :: a[i] == (a + b)[i];
      assert forall i | 0 <= i < |b| :: b[i] == (a + b)[|a| + i];
    }
  }

  // Nothing after the section matters

  /** The text up to a line outside fences is accepted by itself, and reports what stands up to that line. */
  lemma {:induction false} ScanUpTo(syntax: Syntax, lines: seq<string>, index: nat, active: Option<Fence>, k: nat)
    requires Scan(syntax, lines, index, active).Ok? && k < |Scan(syntax, lines, index, active).value|
    ensures var outside := Scan(syntax, lines, index, active).value;
            && index <= outside[k].index < index + |lines|
            && Scan(syntax, lines[..outside[k].index - index + 1], index, active) == Ok(outside[..k + 1])
    decreases |lines|
  {
    ScanQuotes(syntax, lines, index, active);
    var outside := Scan(syntax, lines, index, active).value;
    var prefix := lines[..outside[k].index - index + 1];
    assert prefix[0] == lines[0];
    if active.Some? {
      var next := if syntax.closes(lines[0], active.value) then None else active;
      ScanUpTo(syntax, lines[1..], index + 1, next, k);
      assert prefix[1..] == lines[1..][..outside[k].index - index];
    } else {
      match syntax.lead(lines[0]) {
        case Refused =>
        case Opens(fence) =>
          ScanUpTo(syntax, lines[1..], index + 1, Some(fence), k);
          assert prefix[1..] == lines[1..][..outside[k].index - index];
        case Text =>
          if k == 0 {
            assert outside[0] == Outside(index, lines[0]);
            assert prefix[1..] == [] && outside[..1] == [outside[0]] + [];
          } else {
            var rest := Scan(syntax, lines[1..], index + 1, None).value;
            ScanUpTo(syntax, lines[1..], index + 1, None, k - 1);
            assert prefix[1..] == lines[1..][..outside[k].index - index];
            assert outside[..k + 1] == [Outside(index, lines[0])] + rest[..k];
          }
      }
    }
  }

  /** Cutting the lines after the question heading off leaves the bounds. */
  lemma BoundsUpTo(outside: seq<Outside>, labels: Labels, bounds: Bounds, k: nat)
    requires BoundsOf(outside, labels) == Ok(bounds)
    requires k < |outside| && OnlyPosition(outside, labels.questions, k) && outside[k].index == bounds.end
    requires forall i, j | 0 <= i < j < |outside| :: outside[i].index < outside[j].index
    ensures BoundsOf(outside[..k + 1], labels) == Ok(bounds)
  {
    BoundsAreExact(outside, labels, bounds);
    var m :| 0 <= m < |outside| && OnlyPosition(outside, labels.materials, m) && outside[m].index == bounds.start;
    var prefix := outside[..k + 1];
    assert m < k;
    assert OnlyPosition(prefix, labels.materials, m) && prefix[m].index == bounds.start;
    assert OnlyPosition(prefix, labels.questions, k) && prefix[k].index == bounds.end;
    BoundsAreExact(prefix, labels, bounds);
  }

  lemma SectionHasSameBounds(syntax: Syntax, lines: seq<string>, labels: Labels)
    requires BoundsIn(syntax, lines, labels).Ok?
    ensures var bounds := BoundsIn(syntax, lines, labels).value;
            bounds.start < bounds.end < |lines| && BoundsIn(syntax, lines[..bounds.end + 1], labels) == Ok(bounds)
  {
    var outside, bounds := OutsideOf(syntax, lines).value, BoundsIn(syntax, lines, labels).value;
    BoundsStayInside(syntax, lines, labels);
    BoundsAreExact(outside, labels, bounds);
    ScanQuotes(syntax, lines, 0, None);
    var k :| 0 <= k < |outside| && OnlyPosition(outside, labels.questions, k) && outside[k].index == bounds.end;
    ScanUpTo(syntax, lines, 0, None, k);
    BoundsUpTo(outside, labels, bounds, k);
  }

  /** An extraction depends on the text up to its question heading alone. */
  lemma ExtractEndsAtTheQuestions(syntax: Syntax, lines: seq<string>, approved: string -> bool, labels: Labels)
    requires Extract(syntax, lines, approved, labels).Ok?
    ensures var bounds := BoundsIn(syntax, lines, labels).value;
            bounds.end < |lines| && Extract(syntax, lines[..bounds.end + 1], approved, labels) ==
                Extract(syntax, lines, approved, labels)
  {
    var bounds := BoundsIn(syntax, lines, labels).value;
    SectionHasSameBounds(syntax, lines, labels);
    var section := lines[..bounds.end + 1];
    assert section[bounds.start + 1..bounds.end] == lines[bounds.start + 1..bounds.end];
    assert lines == section + lines[bounds.end + 1..];
    ApprovedTogether(section, lines[bounds.end + 1..], approved);
  }

  /** The bounds of an extraction are lines of the text that are the headings. */
  lemma BoundsAreHeadings(syntax: Syntax, lines: seq<string>, labels: Labels)
    requires BoundsIn(syntax, lines, labels).Ok?
    ensures var bounds := BoundsIn(syntax, lines, labels).value;
            bounds.start < bounds.end < |lines| && labels.materials(lines[bounds.start])
                && labels.questions(lines[bounds.end])
  {
    var outside, bounds := OutsideOf(syntax, lines).value, BoundsIn(syntax, lines, labels).value;
    BoundsStayInside(syntax, lines, labels);
    BoundsAreExact(outside, labels, bounds);
    ScanQuotes(syntax, lines, 0, None);
    assert forall i | 0 <= i < |outside| :: lines[outside[i].index] == outside[i].line;
  }

  lemma ExtractIsTheSection(syntax: Syntax, lines: seq<string>, approved: string -> bool, labels: Labels,
      bounds: Bounds)
    requires Extract(syntax, lines, approved, labels).Ok? && BoundsIn(syntax, lines, labels) == Ok(bounds)
    ensures bounds.start < bounds.end < |lines| && labels.materials(lines[bounds.start])
            && labels.questions(lines[bounds.end])
    ensures Extract(syntax, lines[..bounds.end + 1], approved, labels) == Extract(syntax, lines, approved, labels)
    ensures Extract(syntax, lines, approved, labels) == Ok(labels.preamble + Body(lines, bounds) + "\n")
  {
    BoundsAreHeadings(syntax, lines, labels);
    ExtractEndsAtTheQuestions(syntax, lines, approved, labels);
  }

  lemma WorkspaceHeadings(preamble: string, line: string)
    ensures Workspace(preamble).materials(line) <==> Strip(line) == "## 서비스에 등록할 자료"
    ensures Workspace(preamble).questions(line) <==> Strip(line) == "## 시험 질문과 확인 기준"
  {
  }

  /** With the workspace's own headings: what is exported is the text between them, whatever else the scenario says. */
  lemma WorkspaceExport(lines: seq<string>, approved: string -> bool, preamble: string, bounds: Bounds)
    requires Extract(MARKDOWN, lines, approved, Workspace(preamble)).Ok?
    requires BoundsIn(MARKDOWN, lines, Workspace(preamble)) == Ok(bounds)
    ensures bounds.start < bounds.end < |lines|
    ensures Strip(lines[bounds.start]) == "## 서비스에 등록할 자료" && Strip(lines[bounds.end]) == "## 시험 질문과 확인 기준"
    ensures Extract(MARKDOWN, lines[..bounds.end + 1], approved, Workspace(preamble)) ==
            Extract(MARKDOWN, lines, approved, Workspace(preamble))
    ensures Extract(MARKDOWN, lines, approved, Workspace(preamble)) == Ok(preamble + Body(lines, bounds) + "\n")
  {
    ExtractIsTheSection(MARKDOWN, lines, approved, Workspace(preamble), bounds);
    WorkspaceHeadings(preamble, lines[bounds.start]);
    WorkspaceHeadings(preamble, lines[bounds.end]);
  }

  // Fenced blocks

  /** The position of a line once `length` lines have been put in before position `at`. */
  function Pushed(index: nat, at: nat, length: nat): nat {
    if index < at then index else index + length
  }

  ghost predicate PushedLines(before: seq<Outside>, after: seq<Outside>, at: nat, length: nat) {
    && |after| == |before|
    && forall i | 0 <= i < |before| :: after[i] == Outside(Pushed(before[i].index, at, length), before[i].line)
  }

  lemma {:induction false} MarkedPushed(before: seq<Outside>, after: seq<Outside>, at: nat, length: nat,
      marks: string -> bool)
    requires PushedLines(before, after, at, length)
    ensures var m, n := Marked(before, marks), Marked(after, marks);
            |n| == |m| && forall i | 0 <= i < |m| :: n[i] == Pushed(m[i], at, length)
    decreases |before|
  {
    if before != [] {
      MarkedPushed(before[1..], after[1..], at, length, marks);
    }
  }

  lemma BoundsPushed(before: seq<Outside>, after: seq<Outside>, at: nat, length: nat, labels: Labels)
    requires PushedLines(before, after, at, length)
    ensures BoundsOf(after, labels)
         == match BoundsOf(before, labels)
            case Ok(bounds) => Ok(Bounds(Pushed(bounds.start, at, length), Pushed(bounds.end, at, length)))
            case Err(error) => Err(error)
  {
    MarkedPushed(before, after, at, length, labels.materials);
    MarkedPushed(before, after, at, length, labels.questions);
    var starts, ends := Marked(before, labels.materials), Marked(before, labels.questions);
    if |starts| == 1 && |ends| == 1 {
      var bounds := Bounds(starts[0], ends[0]);
      NoneBetweenPushed(before, after, at, length, bounds, labels.unexpected);
    }
  }

  lemma NoneBetweenPushed(before: seq<Outside>, after: seq<Outside>, at: nat, length: nat, bounds: Bounds,
                          unexpected: string -> bool)
    requires PushedLines(before, after, at, length)
    ensures NoneBetween(after, Bounds(Pushed(bounds.start, at, length), Pushed(bounds.end, at, length)), unexpected)
       <==> NoneBetween(before, bounds, unexpected)
  {
    assert forall i | 0 <= i < |before| ::
        (Pushed(bounds.start, at, length) < after[i].index < Pushed(bounds.end, at, length) <==>
         bounds.start < before[i].index < bounds.end);
  }

  /**
   * Whatever a fenced block says, headings and labels included, the section bounds are those of the text without it,
   * moved past the block where they come after it; the errors are the same too.
   */
  lemma FencedBlocksAreInvisible(syntax: Syntax, a: seq<string>, block: Block, b: seq<string>, labels: Labels)
    requires OutsideOf(syntax, a).Ok? && WellFormedBlock(syntax, block) && block.Fenced?
    ensures BoundsIn(syntax, a + RenderBlock(block) + b, labels)
         == match BoundsIn(syntax, a + b, labels)
            case Ok(bounds) => Ok(Bounds(Pushed(bounds.start, |a|, |RenderBlock(block)|),
                                         Pushed(bounds.end, |a|, |RenderBlock(block)|)))
            case Err(error) => Err(error)
  {
    var length := |RenderBlock(block)|;
    FencedBlockAddsNothing(syntax, a, block, b);
    ScanJoins(syntax, a, b);
    if OutsideOf(syntax, b).Ok? {
      var first, rest := OutsideOf(syntax, a).value, OutsideOf(syntax, b).value;
      ScanQuotes(syntax, a, 0, None);
      MovedIsPushed(first, rest, |a|, length);
      BoundsPushed(first + Moved(rest, |a|), first + Moved(rest, |a| + length), |a|, length, labels);
    }
  }

  lemma MovedIsPushed(first: seq<Outside>, rest: seq<Outside>, at: nat, length: nat)
    requires forall i | 0 <= i < |first| :: first[i].index < at
    ensures PushedLines(first + Moved(rest, at), first + Moved(rest, at + length), at, length)
  {
  }
}
