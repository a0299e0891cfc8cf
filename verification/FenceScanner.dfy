/**
 * The line scanner that tells the lines outside code fences from those inside. It sees a line only through two
 * questions: what would the line do outside a fence, and would it close a given fence.
 */
module FenceScanner {
  import opened Prelude

  datatype Error =
    | UnapprovedEmail
    | InvalidFenceInfo
    | UnclosedFence
    | SectionCount
    | SectionOrder
    | UnexpectedLabel
    | EmptyMaterials

  datatype Fence = Fence(mark: char, length: nat)
  datatype Outside = Outside(index: nat, line: string)

  /** A line outside every fence is text, opens a fence, or is refused for its info string. */
  datatype Lead = Text | Refused | Opens(fence: Fence)

  datatype Syntax = Syntax(lead: string -> Lead, closes: (string, Fence) -> bool)

  function Prepend(before: seq<Outside>, r: Result<seq<Outside>, Error>): Result<seq<Outside>, Error> {
    match r
    case Ok(after) => Ok(before + after)
    case Err(error) => Err(error)
  }

  function Scan(syntax: Syntax, lines: seq<string>, index: nat, active: Option<Fence>): Result<seq<Outside>, Error> {
    if lines == [] then
      if active.Some? then Err(UnclosedFence) else Ok([])
    else if active.Some? then
      Scan(syntax, lines[1..], index + 1, if syntax.closes(lines[0], active.value) then None else active)
    else match syntax.lead(lines[0])
      case Text => Prepend([Outside(index, lines[0])], Scan(syntax, lines[1..], index + 1, None))
      case Refused => Err(InvalidFenceInfo)
      case Opens(fence) => Scan(syntax, lines[1..], index + 1, Some(fence))
  }

  function OutsideOf(syntax: Syntax, lines: seq<string>): Result<seq<Outside>, Error> {
    Scan(syntax, lines, 0, None)
  }

  /** `outside_fence_lines`. */
  method OutsideFenceLines(syntax: Syntax, lines: seq<string>) returns (r: Result<seq<Outside>, Error>)
    ensures r == OutsideOf(syntax, lines)
  {
    var outside: seq<Outside> := [];
    var active: Option<Fence> := None;
    assert lines[0..] == lines;
    PrependNothing(OutsideOf(syntax, lines));
    for index := 0 to |lines|
      invariant OutsideOf(syntax, lines) == Prepend(outside, Scan(syntax, lines[index..], index, active))
    {
      var line := lines[index];
      assert lines[index..][0] == line && lines[index..][1..] == lines[index + 1..];
      if active.Some? {
        if syntax.closes(line, active.value) {
          active := None;
        }
      } else {
        match syntax.lead(line) {
          case Opens(fence) =>
            active := Some(fence);
          case Refused =>
            return Err(InvalidFenceInfo);
          case Text =>
            PrependTwice(outside, [Outside(index, line)], Scan(syntax, lines[index + 1..], index + 1, None));
            outside := outside + [Outside(index, line)];
        }
      }
    }
    assert outside + [] == outside;
    if active.Some? {
      return Err(UnclosedFence);
    }
    return Ok(outside);
  }

  lemma PrependTwice(a: seq<Outside>, b: seq<Outside>, r: Result<seq<Outside>, Error>)
    ensures Prepend(a, Prepend(b, r)) == Prepend(a + b, r)
  {
    if r.Ok? {
      assert a + (b + r.value) == (a + b) + r.value;
    }
  }

  // Which documents the scanner accepts

  /** A document is a sequence of plain lines and of fenced blocks. */
  datatype Block = Plain(line: string) | Fenced(opening: string, body: seq<string>, closing: string)

  predicate NothingCloses(syntax: Syntax, body: seq<string>, fence: Fence) {
    forall i | 0 <= i < |body| :: !syntax.closes(body[i], fence)
  }

  predicate WellFormedBlock(syntax: Syntax, b: Block) {
    match b
    case Plain(line) => syntax.lead(line).Text?
    case Fenced(opening, body, closing) =>
      && syntax.lead(opening).Opens?
      && NothingCloses(syntax, body, syntax.lead(opening).fence)
      && syntax.closes(closing, syntax.lead(opening).fence)
  }

  predicate WellFormed(syntax: Syntax, blocks: seq<Block>) {
    forall i | 0 <= i < |blocks| :: WellFormedBlock(syntax, blocks[i])
  }

  function RenderBlock(b: Block): seq<string> {
    match b
    case Plain(line) => [line]
    case Fenced(opening, body, closing) => [opening] + body + [closing]
  }

  function Render(blocks: seq<Block>): seq<string> {
    if blocks == [] then [] else RenderBlock(blocks[0]) + Render(blocks[1..])
  }

  /** The plain lines with their positions in the rendered document. */
  function PlainLines(blocks: seq<Block>, index: nat): seq<Outside> {
    if blocks == [] then []
    else (if blocks[0].Plain? then [Outside(index, blocks[0].line)] else [])
         + PlainLines(blocks[1..], index + |RenderBlock(blocks[0])|)
  }

  /** The rest of a document that begins with a fence the scanner refuses. */
  predicate RefusedInfo(syntax: Syntax, rest: seq<string>) {
    rest != [] && syntax.lead(rest[0]).Refused?
  }

  /** The rest of a document that opens a fence and never closes it. */
  predicate NeverClosed(syntax: Syntax, rest: seq<string>) {
    rest != [] && syntax.lead(rest[0]).Opens? && NothingCloses(syntax, rest[1..], syntax.lead(rest[0]).fence)
  }

  lemma {:induction false} ScanBody(syntax: Syntax, body: seq<string>, rest: seq<string>, index: nat, fence: Fence)
    requires NothingCloses(syntax, body, fence)
    ensures Scan(syntax, body + rest, index, Some(fence)) == Scan(syntax, rest, index + |body|, Some(fence))
    decreases |body|
  {
    if body == [] {
      assert body + rest == rest;
    } else {
      assert (body + rest)[1..] == body[1..] + rest;
      ScanBody(syntax, body[1..], rest, index + 1, fence);
    }
  }

  lemma ScanBlock(syntax: Syntax, b: Block, rest: seq<string>, index: nat)
    requires WellFormedBlock(syntax, b)
    ensures Scan(syntax, RenderBlock(b) + rest, index, None)
         == Prepend(if b.Plain? then [Outside(index, b.line)] else [],
                    Scan(syntax, rest, index + |RenderBlock(b)|, None))
  {
    var lines := RenderBlock(b) + rest;
    match b {
      case Plain(line) =>
        assert lines[1..] == rest;
      case Fenced(opening, body, closing) =>
        var fence := syntax.lead(opening).fence;
        assert lines[1..] == body + ([closing] + rest);
        ScanBody(syntax, body, [closing] + rest, index + 1, fence);
        assert ([closing] + rest)[1..] == rest;
        PrependNothing(Scan(syntax, rest, index + |RenderBlock(b)|, None));
    }
  }

  lemma PrependNothing(r: Result<seq<Outside>, Error>)
    ensures Prepend([], r) == r
  {
    if r.Ok? {
      assert [] + r.value == r.value;
    }
  }

  lemma {:induction false} ScanBlocks(syntax: Syntax, blocks: seq<Block>, rest: seq<string>, index: nat)
    requires WellFormed(syntax, blocks)
    ensures Scan(syntax, Render(blocks) + rest, index, None)
         == Prepend(PlainLines(blocks, index), Scan(syntax, rest, index + |Render(blocks)|, None))
    decreases |blocks|
  {
    if blocks == [] {
      assert Render(blocks) + rest == rest;
      PrependNothing(Scan(syntax, rest, index, None));
    } else {
      var first, more := RenderBlock(blocks[0]), Render(blocks[1..]);
      var plain := if blocks[0].Plain? then [Outside(index, blocks[0].line)] else [];
      ScanBlock(syntax, blocks[0], more + rest, index);
      ScanBlocks(syntax, blocks[1..], rest, index + |first|);
      assert first + more + rest == first + (more + rest);
      PrependTwice(plain, PlainLines(blocks[1..], index + |first|), Scan(syntax, rest, index + |first| + |more|, None));
    }
  }

  /** Every document is a sequence of blocks followed by nothing, by a refused fence or by a fence that stays open. */
  lemma {:induction false} Split(syntax: Syntax, lines: seq<string>) returns (blocks: seq<Block>, rest: seq<string>)
    ensures WellFormed(syntax, blocks) && lines == Render(blocks) + rest
    ensures rest == [] || RefusedInfo(syntax, rest) || NeverClosed(syntax, rest)
    decreases |lines|
  {
    if lines == [] {
      blocks, rest := [], [];
    } else if RefusedInfo(syntax, lines) || NeverClosed(syntax, lines) {
      blocks, rest := [], lines;
      assert Render(blocks) + rest == lines;
    } else {
      var block, tail := FirstBlock(syntax, lines);
      var more;
      more, rest := Split(syntax, tail);
      blocks := [block] + more;
      RenderMore(syntax, block, more);
      Regroup(RenderBlock(block), Render(more), rest);
    }
  }

  lemma Regroup(a: seq<string>, b: seq<string>, c: seq<string>)
    ensures a + (b + c) == a + b + c
  {
  }

  lemma RenderMore(syntax: Syntax, block: Block, more: seq<Block>)
    requires WellFormedBlock(syntax, block) && WellFormed(syntax, more)
    ensures WellFormed(syntax, [block] + more)
    ensures Render([block] + more) == RenderBlock(block) + Render(more)
  {
    assert ([block] + more)[1..] == more;
  }

  lemma FirstBlock(syntax: Syntax, lines: seq<string>) returns (block: Block, tail: seq<string>)
    requires lines != [] && !RefusedInfo(syntax, lines) && !NeverClosed(syntax, lines)
    ensures WellFormedBlock(syntax, block) && lines == RenderBlock(block) + tail && |tail| < |lines|
  {
    if syntax.lead(lines[0]).Text? {
      block, tail := Plain(lines[0]), lines[1..];
    } else {
      var rest := lines[1..];
      var end := FirstClosing(syntax, rest, syntax.lead(lines[0]).fence);
      block, tail := Fenced(lines[0], rest[..end], rest[end]), rest[end + 1..];
    }
  }

  lemma {:induction false} FirstClosing(syntax: Syntax, lines: seq<string>, fence: Fence) returns (end: nat)
    requires !NothingCloses(syntax, lines, fence)
    ensures end < |lines| && syntax.closes(lines[end], fence)
    ensures NothingCloses(syntax, lines[..end], fence)
    decreases |lines|
  {
    if syntax.closes(lines[0], fence) {
      end := 0;
    } else {
      end := FirstClosing(syntax, lines[1..], fence);
      end := end + 1;
      assert lines[..end] == [lines[0]] + lines[1..][..end - 1];
    }
  }

  lemma ScanRest(syntax: Syntax, rest: seq<string>, index: nat)
    requires rest == [] || RefusedInfo(syntax, rest) || NeverClosed(syntax, rest)
    ensures rest == [] ==> Scan(syntax, rest, index, None) == Ok([])
    ensures rest != [] && RefusedInfo(syntax, rest) ==> Scan(syntax, rest, index, None) == Err(InvalidFenceInfo)
    ensures rest != [] && NeverClosed(syntax, rest) ==> Scan(syntax, rest, index, None) == Err(UnclosedFence)
  {
    if rest != [] && NeverClosed(syntax, rest) {
      ScanBody(syntax, rest[1..], [], index + 1, syntax.lead(rest[0]).fence);
      assert rest[1..] + [] == rest[1..];
    }
  }

  /** The scanner accepts exactly the documents made of blocks, and reports exactly their plain lines. */
  lemma ScanAcceptsExactlyBlocks(syntax: Syntax, lines: seq<string>, outside: seq<Outside>)
    ensures OutsideOf(syntax, lines) == Ok(outside) <==>
              exists blocks :: WellFormed(syntax, blocks) && lines == Render(blocks) && outside == PlainLines(blocks, 0)
  {
    var found, left := Split(syntax, lines);
    ReadSplit(syntax, lines, found, left);
    assert left == [] ==> Render(found) + left == Render(found);
    forall blocks | WellFormed(syntax, blocks) && lines == Render(blocks)
      ensures OutsideOf(syntax, lines) == Ok(PlainLines(blocks, 0))
    {
      assert Render(blocks) + [] == Render(blocks);
      ReadSplit(syntax, lines, blocks, []);
    }
  }

  /** The two errors say exactly what stopped the scanner after the last whole block. */
  lemma ScanErrorsAreExact(syntax: Syntax, lines: seq<string>)
    ensures OutsideOf(syntax, lines) == Err(InvalidFenceInfo) <==>
              exists blocks, rest :: WellFormed(syntax, blocks) && lines == Render(blocks) + rest
                  && RefusedInfo(syntax, rest)
    ensures OutsideOf(syntax, lines) == Err(UnclosedFence) <==>
              exists blocks, rest :: WellFormed(syntax, blocks) && lines == Render(blocks) + rest
                  && NeverClosed(syntax, rest)
  {
    var found, left := Split(syntax, lines);
    ReadSplit(syntax, lines, found, left);
    forall blocks, rest | WellFormed(syntax, blocks) && lines == Render(blocks) + rest &&
                          (RefusedInfo(syntax, rest) || NeverClosed(syntax, rest))
      ensures OutsideOf(syntax, lines) == Err(if RefusedInfo(syntax, rest) then InvalidFenceInfo else UnclosedFence)
    {
      ReadSplit(syntax, lines, blocks, rest);
    }
  }

  lemma ReadSplit(syntax: Syntax, lines: seq<string>, blocks: seq<Block>, rest: seq<string>)
    requires WellFormed(syntax, blocks) && lines == Render(blocks) + rest
    requires rest == [] || RefusedInfo(syntax, rest) || NeverClosed(syntax, rest)
    ensures OutsideOf(syntax, lines)
         == if rest == [] then Ok(PlainLines(blocks, 0))
            else if RefusedInfo(syntax, rest) then Err(InvalidFenceInfo) else Err(UnclosedFence)
  {
    ScanBlocks(syntax, blocks, rest, 0);
    ScanRest(syntax, rest, |Render(blocks)|);
    assert PlainLines(blocks, 0) + [] == PlainLines(blocks, 0);
  }

  // Texts one after the other

  function Moved(outside: seq<Outside>, offset: nat): (moved: seq<Outside>)
    ensures |moved| == |outside|
    ensures forall i | 0 <= i < |outside| :: moved[i] == Outside(outside[i].index + offset, outside[i].line)
  {
    if outside == [] then []
    else [Outside(outside[0].index + offset, outside[0].line)] + Moved(outside[1..], offset)
  }

  function MovedResult(r: Result<seq<Outside>, Error>, offset: nat): Result<seq<Outside>, Error> {
    match r
    case Ok(outside) => Ok(Moved(outside, offset))
    case Err(error) => Err(error)
  }

  /** The position at which a text starts only moves what is reported. */
  lemma {:induction false} ScanMoved(syntax: Syntax, lines: seq<string>, index: nat, offset: nat, active: Option<Fence>)
    ensures Scan(syntax, lines, index + offset, active) == MovedResult(Scan(syntax, lines, index, active), offset)
    decreases |lines|
  {
    if lines == [] {
    } else if active.Some? {
      ScanMoved(syntax, lines[1..], index + 1, offset, if syntax.closes(lines[0], active.value) then None else active);
    } else {
      match syntax.lead(lines[0]) {
        case Refused =>
        case Opens(fence) =>
          ScanMoved(syntax, lines[1..], index + 1, offset, Some(fence));
        case Text =>
          ScanMoved(syntax, lines[1..], index + 1, offset, None);
          MovedPrepend(Outside(index, lines[0]), Scan(syntax, lines[1..], index + 1, None), offset);
      }
    }
  }

  lemma MovedPrepend(first: Outside, r: Result<seq<Outside>, Error>, offset: nat)
    ensures MovedResult(Prepend([first], r), offset) ==
            Prepend([Outside(first.index + offset, first.line)], MovedResult(r, offset))
  {
    if r.Ok? {
      assert ([first] + r.value)[1..] == r.value;
    }
  }

  lemma {:induction false} ScanOn(syntax: Syntax, a: seq<string>, b: seq<string>, index: nat, active: Option<Fence>)
    requires Scan(syntax, a, index, active).Ok?
    ensures Scan(syntax, a + b, index, active)
         == Prepend(Scan(syntax, a, index, active).value, Scan(syntax, b, index + |a|, None))
    decreases |a|
  {
    if a == [] {
      assert a + b == b;
      PrependNothing(Scan(syntax, b, index, None));
    } else {
      assert (a + b)[1..] == a[1..] + b;
      if active.Some? {
        ScanOn(syntax, a[1..], b, index + 1, if syntax.closes(a[0], active.value) then None else active);
      } else {
        match syntax.lead(a[0]) {
          case Refused =>
          case Opens(fence) =>
            ScanOn(syntax, a[1..], b, index + 1, Some(fence));
          case Text =>
            ScanOn(syntax, a[1..], b, index + 1, None);
            PrependTwice([Outside(index, a[0])], Scan(syntax, a[1..], index + 1, None).value,
                         Scan(syntax, b, index + |a|, None));
        }
      }
    }
  }

  /** Scanning accepted text followed by more text is the two scans joined, the second with its positions moved on. */
  lemma ScanJoins(syntax: Syntax, a: seq<string>, b: seq<string>)
    requires OutsideOf(syntax, a).Ok?
    ensures OutsideOf(syntax, a + b) == Prepend(OutsideOf(syntax, a).value, MovedResult(OutsideOf(syntax, b), |a|))
  {
    ScanOn(syntax, a, b, 0, None);
    ScanMoved(syntax, b, 0, |a|, None);
  }

  /** A fenced block between two texts adds no line of its own; it only moves what follows. */
  lemma FencedBlockAddsNothing(syntax: Syntax, a: seq<string>, block: Block, b: seq<string>)
    requires OutsideOf(syntax, a).Ok? && WellFormedBlock(syntax, block) && block.Fenced?
    ensures OutsideOf(syntax, a + RenderBlock(block) + b)
         == Prepend(OutsideOf(syntax, a).value, MovedResult(OutsideOf(syntax, b), |a| + |RenderBlock(block)|))
  {
    var fenced := RenderBlock(block);
    ScanOn(syntax, a, fenced + b, 0, None);
    assert a + (fenced + b) == a + fenced + b;
    ScanBlock(syntax, block, b, |a|);
    PrependNothing(Scan(syntax, b, |a| + |fenced|, None));
    ScanMoved(syntax, b, 0, |a| + |fenced|, None);
  }
}
