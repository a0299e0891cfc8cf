/**
 The Gmail query compiler: a recursive descent over a token list with one shared
 index.  Terms are atoms with an optional leading minus; which atoms are accepted
 and what they match is left open.
 */
module GmailQuery {
  import opened Prelude

  datatype Token<A> = LBrace | RBrace | LParen | RParen | Or | Word(negated: bool, atom: A)

  /** A term, or a group of `OR`-separated branches in parentheses or in braces. */
  datatype Item<A> = Leaf(negated: bool, atom: A) | Group(brace: bool, branches: seq<Branch<A>>)

  /** The items of one conjunction. */
  datatype Branch<A> = Branch(items: seq<Item<A>>)

  /** What ends an expression: the end of the query, or a closing token. */
  datatype Closing = AtEnd | AtBrace | AtParen

  datatype Syntax = Unbalanced | EmptyOr | Unclosed | EmptyBranch | BadTerm | Trailing

  predicate Closes<A>(closing: Closing, token: Token<A>) {
    (closing == AtBrace && token.RBrace?) || (closing == AtParen && token.RParen?)
  }

  function Closer<A>(brace: bool): Token<A> {
    if brace then RBrace else RParen
  }

  function Opener<A>(brace: bool): Token<A> {
    if brace then LBrace else LParen
  }

  function Ending<A>(closing: Closing): seq<Token<A>> {
    match closing
    case AtEnd => []
    case AtBrace => [RBrace]
    case AtParen => [RParen]
  }

  function ClosingOf(brace: bool): Closing {
    if brace then AtBrace else AtParen
  }

  function Last<T>(s: seq<T>): T
    requires s != []
  {
    s[|s| - 1]
  }

  /** Appends an item to the last of the branches. */
  function Push<A>(branches: seq<Branch<A>>, i: Item<A>): (r: seq<Branch<A>>)
    requires branches != []
    ensures r != []
  {
    branches[..|branches| - 1] + [Branch(Last(branches).items + [i])]
  }

  // ----- The grammar: which token lists an item, a branch and a list of branches are written as

  function PrintItem<A>(i: Item<A>): seq<Token<A>>
    decreases i, 0
  {
    match i
    case Leaf(negated, atom) => [Word(negated, atom)]
    case Group(brace, branches) => [Opener(brace)] + PrintBranches(branches) + [Closer(brace)]
  }

  function PrintBranch<A>(items: seq<Item<A>>): seq<Token<A>>
    decreases items, 1
  {
    if items == [] then [] else PrintItem(items[0]) + PrintBranch(items[1..])
  }

  function PrintBranches<A>(branches: seq<Branch<A>>): seq<Token<A>>
    decreases branches, 2
  {
    if branches == [] then []
    else if |branches| == 1 then PrintBranch(branches[0].items)
    else PrintBranch(branches[0].items) + [Or] + PrintBranches(branches[1..])
  }

  /** Every group has branches, no branch is empty, and every atom is accepted. */
  predicate WellFormed<A>(accepts: A -> bool, i: Item<A>)
    decreases i, 0
  {
    match i
    case Leaf(_, atom) => accepts(atom)
    case Group(_, branches) => branches != [] && WellFormedBranches(accepts, branches)
  }

  predicate WellFormedBranch<A>(accepts: A -> bool, items: seq<Item<A>>)
    decreases items, 1
  {
    items == [] || (WellFormed(accepts, items[0]) && WellFormedBranch(accepts, items[1..]))
  }

  predicate WellFormedBranches<A>(accepts: A -> bool, branches: seq<Branch<A>>)
    decreases branches, 2
  {
    branches == []
    || (branches[0].items != [] && WellFormedBranch(accepts, branches[0].items)
        && WellFormedBranches(accepts, branches[1..]))
  }

  // ----- Meaning

  predicate Denotes<A, R>(matches: (A, R) -> bool, i: Item<A>, r: R)
    decreases i, 0
  {
    match i
    case Leaf(negated, atom) => matches(atom, r) != negated
    case Group(brace, branches) =>
      if brace then exists k | 0 <= k < |branches| :: SomeHolds(matches, branches[k].items, r)
      else exists k | 0 <= k < |branches| :: AllHold(matches, branches[k].items, r)
  }

  predicate AllHold<A, R>(matches: (A, R) -> bool, items: seq<Item<A>>, r: R)
    decreases items, 1
  {
    forall k | 0 <= k < |items| :: Denotes(matches, items[k], r)
  }

  predicate SomeHolds<A, R>(matches: (A, R) -> bool, items: seq<Item<A>>, r: R)
    decreases items, 1
  {
    exists k | 0 <= k < |items| :: Denotes(matches, items[k], r)
  }

  /** A whole query: any of its branches, each the conjunction of its items. */
  predicate Satisfies<A, R>(matches: (A, R) -> bool, query: seq<Branch<A>>, r: R) {
    exists k | 0 <= k < |query| :: AllHold(matches, query[k].items, r)
  }

  // ----- The parser

  type Parsed<A> = Result<(seq<Branch<A>>, seq<Token<A>>), Syntax>

  /** The branches read so far and the tokens left; `acc` is never empty and its last branch is still open. */
  function Parse<A>(accepts: A -> bool, tokens: seq<Token<A>>, closing: Closing, acc: seq<Branch<A>>)
      : (parsed: Parsed<A>)
    requires acc != []
    ensures parsed.Ok? ==> if closing.AtEnd? then parsed.value.1 == [] else |parsed.value.1| < |tokens|
    ensures parsed != Err(Trailing)
    decreases |tokens|, 0
  {
    if tokens == [] || Closes(closing, tokens[0]) then
      if tokens == [] && !closing.AtEnd? then Err(Unclosed)
      else if Last(acc).items == [] && (!closing.AtEnd? || |acc| > 1) then Err(EmptyBranch)
      else Ok((acc, if closing.AtEnd? then tokens else tokens[1..]))
    else
      var rest := tokens[1..];
      match tokens[0]
      case RBrace => Err(Unbalanced)
      case RParen => Err(Unbalanced)
      case Or => if Last(acc).items == [] then Err(EmptyOr) else Parse(accepts, rest, closing, acc + [Branch([])])
      case Word(negated, atom) =>
        if !accepts(atom) then Err(BadTerm) else Parse(accepts, rest, closing, Push(acc, Leaf(negated, atom)))
      case LBrace => ParseGroup(accepts, rest, closing, acc, true)
      case LParen => ParseGroup(accepts, rest, closing, acc, false)
  }

  function ParseGroup<A>(accepts: A -> bool, rest: seq<Token<A>>, closing: Closing, acc: seq<Branch<A>>, brace: bool)
      : (parsed: Parsed<A>)
    requires acc != []
    ensures parsed.Ok? ==> if closing.AtEnd? then parsed.value.1 == [] else |parsed.value.1| < |rest|
    ensures parsed != Err(Trailing)
    decreases |rest|, 1
  {
    match Parse(accepts, rest, ClosingOf(brace), [Branch([])])
    case Err(e) => Err(e)
    case Ok((body, after)) => Parse(accepts, after, closing, Push(acc, Group(brace, body)))
  }

  /** What is left is the end of what was given. */
  lemma {:induction false} LeavesSuffix<A>(accepts: A -> bool, tokens: seq<Token<A>>, closing: Closing,
      acc: seq<Branch<A>>)
    requires acc != [] && Parse(accepts, tokens, closing, acc).Ok?
    ensures var rest := Parse(accepts, tokens, closing, acc).value.1;
            |rest| <= |tokens| && rest == tokens[|tokens| - |rest|..]
    decreases |tokens|, 0
  {
    if tokens != [] && !Closes(closing, tokens[0]) {
      var rest := tokens[1..];
      match tokens[0]
      case Or => LeavesSuffix(accepts, rest, closing, acc + [Branch([])]);
      case Word(negated, atom) => LeavesSuffix(accepts, rest, closing, Push(acc, Leaf(negated, atom)));
      case LBrace => GroupLeavesSuffix(accepts, rest, closing, acc, true);
      case LParen => GroupLeavesSuffix(accepts, rest, closing, acc, false);
      case _ =>
    }
  }

  lemma GroupLeavesSuffix<A>(accepts: A -> bool, tokens: seq<Token<A>>, closing: Closing, acc: seq<Branch<A>>,
      brace: bool)
    requires acc != [] && ParseGroup(accepts, tokens, closing, acc, brace).Ok?
    ensures var rest := ParseGroup(accepts, tokens, closing, acc, brace).value.1;
            |rest| <= |tokens| && rest == tokens[|tokens| - |rest|..]
    decreases |tokens|, 1
  {
    LeavesSuffix(accepts, tokens, ClosingOf(brace), [Branch([])]);
    var (body, after) := Parse(accepts, tokens, ClosingOf(brace), [Branch([])]).value;
    LeavesSuffix(accepts, after, closing, Push(acc, Group(brace, body)));
  }

  lemma {:induction false} PrintBranchAppend<A>(items: seq<Item<A>>, i: Item<A>)
    ensures PrintBranch(items + [i]) == PrintBranch(items) + PrintItem(i)
  {
    if items == [] {
      assert PrintBranch([i]) == PrintItem(i) + PrintBranch([]);
    } else {
      assert (items + [i])[1..] == items[1..] + [i];
      PrintBranchAppend(items[1..], i);
    }
  }

  lemma {:induction false} PrintPush<A>(branches: seq<Branch<A>>, i: Item<A>)
    requires branches != []
    ensures PrintBranches(Push(branches, i)) == PrintBranches(branches) + PrintItem(i)
  {
    if |branches| == 1 {
      PrintBranchAppend(branches[0].items, i);
    } else {
      assert Push(branches, i)[1..] == Push(branches[1..], i);
      PrintPush(branches[1..], i);
    }
  }

  lemma {:induction false} PrintOpen<A>(branches: seq<Branch<A>>)
    requires branches != []
    ensures PrintBranches(branches + [Branch([])]) == PrintBranches(branches) + [Or]
  {
    if |branches| == 1 {
      assert (branches + [Branch([])])[1..] == [Branch([])];
      assert PrintBranches<A>([Branch([])]) == [];
    } else {
      assert (branches + [Branch([])])[1..] == branches[1..] + [Branch([])];
      PrintOpen(branches[1..]);
    }
  }

  /** All branches but the last are finished; the last one may still be empty. */
  predicate Open<A>(accepts: A -> bool, acc: seq<Branch<A>>) {
    acc != [] && WellFormedBranches(accepts, acc[..|acc| - 1]) && WellFormedBranch(accepts, Last(acc).items)
  }

  lemma {:induction false} WellFormedBranchAppend<A>(accepts: A -> bool, items: seq<Item<A>>, i: Item<A>)
    ensures WellFormedBranch(accepts, items + [i]) <==> WellFormedBranch(accepts, items) && WellFormed(accepts, i)
  {
    if items != [] {
      assert (items + [i])[1..] == items[1..] + [i];
      WellFormedBranchAppend(accepts, items[1..], i);
    }
  }

  lemma {:induction false} WellFormedAppend<A>(accepts: A -> bool, branches: seq<Branch<A>>, branch: Branch<A>)
    ensures WellFormedBranches(accepts, branches + [branch]) <==>
            WellFormedBranches(accepts, branches) && branch.items != [] && WellFormedBranch(accepts, branch.items)
  {
    if branches != [] {
      assert (branches + [branch])[1..] == branches[1..] + [branch];
      WellFormedAppend(accepts, branches[1..], branch);
    }
  }

  lemma OpenWhenFinished<A>(accepts: A -> bool, acc: seq<Branch<A>>)
    requires Open(accepts, acc) && Last(acc).items != []
    ensures WellFormedBranches(accepts, acc)
  {
    WellFormedAppend(accepts, acc[..|acc| - 1], Last(acc));
    assert acc[..|acc| - 1] + [Last(acc)] == acc;
  }

  /** What was read and is left is well formed and written exactly as `input`. */
  ghost predicate Faithful<A>(accepts: A -> bool, input: seq<Token<A>>, closing: Closing, body: seq<Branch<A>>,
      rest: seq<Token<A>>) {
    && Open(accepts, body)
    && (Last(body).items == [] ==> closing.AtEnd? && |body| == 1)
    && input == PrintBranches(body) + (Ending(closing) + rest)
  }

  lemma PushSound<A>(accepts: A -> bool, acc: seq<Branch<A>>, i: Item<A>, rest: seq<Token<A>>)
    requires Open(accepts, acc) && WellFormed(accepts, i)
    ensures Open(accepts, Push(acc, i))
    ensures PrintBranches(Push(acc, i)) + rest == PrintBranches(acc) + (PrintItem(i) + rest)
  {
    PrintPush(acc, i);
    WellFormedBranchAppend(accepts, Last(acc).items, i);
    assert Push(acc, i)[..|acc| - 1] == acc[..|acc| - 1];
    assert (PrintBranches(acc) + PrintItem(i)) + rest == PrintBranches(acc) + (PrintItem(i) + rest);
  }

  lemma OpenSound<A>(accepts: A -> bool, acc: seq<Branch<A>>, rest: seq<Token<A>>)
    requires Open(accepts, acc) && Last(acc).items != []
    ensures Open(accepts, acc + [Branch([])])
    ensures PrintBranches(acc + [Branch([])]) + rest == PrintBranches(acc) + ([Or] + rest)
  {
    PrintOpen(acc);
    OpenWhenFinished(accepts, acc);
    assert (acc + [Branch([])])[..|acc|] == acc;
    assert (PrintBranches(acc) + [Or]) + rest == PrintBranches(acc) + ([Or] + rest);
  }

  lemma GroupPrints<A>(brace: bool, inner: seq<Branch<A>>, after: seq<Token<A>>)
    ensures [Opener(brace)] + (PrintBranches(inner) + (Ending(ClosingOf(brace)) + after)) ==
            PrintItem(Group(brace, inner)) + after
  {
  }

  /** What the parser returns is well formed and written exactly as the tokens it consumed. */
  lemma {:induction false} ParseSound<A>(accepts: A -> bool, tokens: seq<Token<A>>, closing: Closing,
      acc: seq<Branch<A>>)
    requires Open(accepts, acc) && Parse(accepts, tokens, closing, acc).Ok?
    ensures var (body, rest) := Parse(accepts, tokens, closing, acc).value;
            Faithful(accepts, PrintBranches(acc) + tokens, closing, body, rest)
    decreases |tokens|, 0
  {
    if tokens == [] || Closes(closing, tokens[0]) {
      assert tokens == Ending(closing) + Parse(accepts, tokens, closing, acc).value.1;
    } else {
      var rest := tokens[1..];
      assert tokens == [tokens[0]] + rest;
      match tokens[0]
      case Or =>
        OpenSound(accepts, acc, rest);
        ParseSound(accepts, rest, closing, acc + [Branch([])]);
      case Word(negated, atom) =>
        PushSound(accepts, acc, Leaf(negated, atom), rest);
        ParseSound(accepts, rest, closing, Push(acc, Leaf(negated, atom)));
      case LBrace => GroupSound(accepts, rest, closing, acc, true);
      case LParen => GroupSound(accepts, rest, closing, acc, false);
      case _ =>
    }
  }

  lemma GroupSound<A>(accepts: A -> bool, tokens: seq<Token<A>>, closing: Closing, acc: seq<Branch<A>>, brace: bool)
    requires Open(accepts, acc) && ParseGroup(accepts, tokens, closing, acc, brace).Ok?
    ensures var (body, after) := ParseGroup(accepts, tokens, closing, acc, brace).value;
            Faithful(accepts, PrintBranches(acc) + ([Opener(brace)] + tokens), closing, body, after)
    decreases |tokens|, 1
  {
    ParseSound(accepts, tokens, ClosingOf(brace), [Branch([])]);
    var (inner, after) := Parse(accepts, tokens, ClosingOf(brace), [Branch([])]).value;
    assert PrintBranches<A>([Branch([])]) + tokens == tokens;
    OpenWhenFinished(accepts, inner);
    PushSound(accepts, acc, Group(brace, inner), after);
    GroupPrints(brace, inner, after);
    ParseSound(accepts, after, closing, Push(acc, Group(brace, inner)));
  }

  lemma StepWord<A>(accepts: A -> bool, negated: bool, atom: A, rest: seq<Token<A>>, closing: Closing,
      acc: seq<Branch<A>>)
    requires acc != [] && accepts(atom)
    ensures Parse(accepts, [Word(negated, atom)] + rest, closing, acc) ==
            Parse(accepts, rest, closing, Push(acc, Leaf(negated, atom)))
  {
    assert ([Word(negated, atom)] + rest)[1..] == rest;
  }

  lemma StepOr<A>(accepts: A -> bool, rest: seq<Token<A>>, closing: Closing, acc: seq<Branch<A>>)
    requires acc != [] && Last(acc).items != []
    ensures Parse(accepts, [Or] + rest, closing, acc) == Parse(accepts, rest, closing, acc + [Branch([])])
  {
    assert ([Or] + rest)[1..] == rest;
  }

  lemma StepGroup<A>(accepts: A -> bool, brace: bool, rest: seq<Token<A>>, closing: Closing, acc: seq<Branch<A>>)
    requires acc != []
    ensures Parse(accepts, [Opener(brace)] + rest, closing, acc) == ParseGroup(accepts, rest, closing, acc, brace)
  {
    assert ([Opener(brace)] + rest)[1..] == rest;
  }

  lemma StepClose<A>(accepts: A -> bool, brace: bool, rest: seq<Token<A>>, acc: seq<Branch<A>>)
    requires acc != [] && Last(acc).items != []
    ensures Parse(accepts, [Closer(brace)] + rest, ClosingOf(brace), acc) == Ok((acc, rest))
  {
    assert ([Closer(brace)] + rest)[1..] == rest;
  }

  /** `Push`, item after item. */
  function PushAll<A>(acc: seq<Branch<A>>, items: seq<Item<A>>): (r: seq<Branch<A>>)
    requires acc != []
    ensures r != []
  {
    acc[..|acc| - 1] + [Branch(Last(acc).items + items)]
  }

  lemma PushAllStep<A>(acc: seq<Branch<A>>, items: seq<Item<A>>)
    requires acc != []
    ensures items == [] ==> PushAll(acc, items) == acc
    ensures items != [] ==> PushAll(Push(acc, items[0]), items[1..]) == PushAll(acc, items)
  {
    if items == [] {
      assert Last(acc).items + [] == Last(acc).items;
    } else {
      assert (Last(acc).items + [items[0]]) + items[1..] == Last(acc).items + items;
    }
  }

  lemma PushAllOpen<A>(acc: seq<Branch<A>>, branch: Branch<A>)
    ensures PushAll(acc + [Branch([])], branch.items) == acc + [branch]
  {
    assert [] + branch.items == branch.items;
    assert (acc + [Branch([])])[..|acc|] == acc;
  }

  lemma {:induction false} WellFormedLast<A>(accepts: A -> bool, branches: seq<Branch<A>>)
    requires branches != [] && WellFormedBranches(accepts, branches)
    ensures Last(branches).items != []
  {
    if |branches| > 1 {
      WellFormedLast(accepts, branches[1..]);
    }
  }

  /** The parser reads a printed item back, whatever follows it. */
  lemma {:induction false} ItemParses<A>(accepts: A -> bool, i: Item<A>, rest: seq<Token<A>>, closing: Closing,
      acc: seq<Branch<A>>)
    requires acc != [] && WellFormed(accepts, i)
    ensures Parse(accepts, PrintItem(i) + rest, closing, acc) == Parse(accepts, rest, closing, Push(acc, i))
    decreases i, 0
  {
    match i
    case Leaf(negated, atom) => StepWord(accepts, negated, atom, rest, closing, acc);
    case Group(brace, branches) => GroupParses(accepts, brace, branches, rest, closing, acc);
  }

  lemma GroupParses<A>(accepts: A -> bool, brace: bool, branches: seq<Branch<A>>, rest: seq<Token<A>>, closing: Closing,
      acc: seq<Branch<A>>)
    requires acc != [] && branches != [] && WellFormedBranches(accepts, branches)
    ensures Parse(accepts, PrintItem(Group(brace, branches)) + rest, closing, acc) ==
            Parse(accepts, rest, closing, Push(acc, Group(brace, branches)))
    decreases branches, 3
  {
    var inner := [Closer(brace)] + rest;
    assert PrintItem(Group(brace, branches)) + rest == [Opener(brace)] + (PrintBranches(branches) + inner);
    StepGroup(accepts, brace, PrintBranches(branches) + inner, closing, acc);
    BranchesParse(accepts, branches, inner, ClosingOf(brace), []);
    assert [] + [Branch<A>.Branch([])] == [Branch([])] && [] + branches == branches;
    WellFormedLast(accepts, branches);
    StepClose(accepts, brace, rest, branches);
  }

  lemma {:induction false} BranchParses<A>(accepts: A -> bool, items: seq<Item<A>>, rest: seq<Token<A>>,
      closing: Closing, acc: seq<Branch<A>>)
    requires acc != [] && WellFormedBranch(accepts, items)
    ensures Parse(accepts, PrintBranch(items) + rest, closing, acc) ==
            Parse(accepts, rest, closing, PushAll(acc, items))
    decreases items, 1
  {
    PushAllStep(acc, items);
    if items == [] {
      assert PrintBranch(items) + rest == rest;
    } else {
      var after := PrintBranch(items[1..]) + rest;
      assert PrintBranch(items) + rest == PrintItem(items[0]) + after;
      ItemParses(accepts, items[0], after, closing, acc);
      BranchParses(accepts, items[1..], rest, closing, Push(acc, items[0]));
    }
  }

  lemma PrintBranchesCons<A>(branches: seq<Branch<A>>, rest: seq<Token<A>>)
    requires |branches| > 1
    ensures PrintBranches(branches) + rest == PrintBranch(branches[0].items)
            + ([Or] + (PrintBranches(branches[1..]) + rest))
  {
  }

  lemma AppendCons<T>(left: seq<T>, right: seq<T>)
    requires right != []
    ensures (left + [right[0]]) + right[1..] == left + right
  {
  }

  lemma {:induction false} BranchesParse<A>(accepts: A -> bool, branches: seq<Branch<A>>, rest: seq<Token<A>>,
      closing: Closing, acc: seq<Branch<A>>)
    requires branches != [] && WellFormedBranches(accepts, branches)
    ensures Parse(accepts, PrintBranches(branches) + rest, closing, acc + [Branch([])]) ==
            Parse(accepts, rest, closing, acc + branches)
    decreases branches, 2
  {
    var first := branches[0];
    PushAllOpen(acc, first);
    if |branches| == 1 {
      BranchParses(accepts, first.items, rest, closing, acc + [Branch([])]);
      assert branches == [first];
    } else {
      var after := PrintBranches(branches[1..]) + rest;
      PrintBranchesCons(branches, rest);
      BranchParses(accepts, first.items, [Or] + after, closing, acc + [Branch([])]);
      StepOr(accepts, after, closing, acc + [first]);
      AppendCons(acc, branches);
      BranchesParse(accepts, branches[1..], rest, closing, acc + [first]);
    }
  }

  // ----- Whole queries

  /** The queries of the grammar: the empty one, or well-formed branches. */
  ghost predicate IsQuery<A>(accepts: A -> bool, query: seq<Branch<A>>) {
    query == [Branch([])] || (query != [] && WellFormedBranches(accepts, query))
  }

  function ParseQuery<A>(accepts: A -> bool, tokens: seq<Token<A>>): Parsed<A> {
    Parse(accepts, tokens, AtEnd, [Branch([])])
  }

  lemma AcceptedIsPrinted<A>(accepts: A -> bool, tokens: seq<Token<A>>)
    requires ParseQuery(accepts, tokens).Ok?
    ensures var (body, rest) := ParseQuery(accepts, tokens).value;
            rest == [] && IsQuery(accepts, body) && PrintBranches(body) == tokens
  {
    ParseSound(accepts, tokens, AtEnd, [Branch([])]);
    assert PrintBranches<A>([Branch([])]) + tokens == tokens;
    var body := ParseQuery(accepts, tokens).value.0;
    if Last(body).items != [] {
      OpenWhenFinished(accepts, body);
    }
  }

  lemma PrintedIsAccepted<A>(accepts: A -> bool, query: seq<Branch<A>>)
    requires IsQuery(accepts, query)
    ensures ParseQuery(accepts, PrintBranches(query)) == Ok((query, []))
  {
    if query != [Branch([])] {
      BranchesParse(accepts, query, [], AtEnd, []);
      WellFormedLast(accepts, query);
      assert PrintBranches(query) + [] == PrintBranches(query);
      assert [] + [Branch<A>.Branch([])] == [Branch([])] && [] + query == query;
    }
  }

  /** The parser accepts exactly the printed forms of the grammar's queries, and gives each query back. */
  lemma AcceptsExactlyTheGrammar<A>(accepts: A -> bool, tokens: seq<Token<A>>, query: seq<Branch<A>>)
    ensures ParseQuery(accepts, tokens) == Ok((query, [])) <==>
            IsQuery(accepts, query) && PrintBranches(query) == tokens
  {
    if ParseQuery(accepts, tokens).Ok? {
      AcceptedIsPrinted(accepts, tokens);
    }
    if IsQuery(accepts, query) {
      PrintedIsAccepted(accepts, query);
    }
  }

  /** The grammar is unambiguous. */
  lemma PrintingIsInjective<A>(accepts: A -> bool, left: seq<Branch<A>>, right: seq<Branch<A>>)
    requires IsQuery(accepts, left) && IsQuery(accepts, right) && PrintBranches(left) == PrintBranches(right)
    ensures left == right
  {
    AcceptsExactlyTheGrammar(accepts, PrintBranches(left), left);
    AcceptsExactlyTheGrammar(accepts, PrintBranches(left), right);
  }

  // ----- Braces

  function Singles<A>(items: seq<Item<A>>): seq<Branch<A>> {
    if items == [] then [] else [Branch([items[0]])] + Singles(items[1..])
  }

  /** Every `{a b ...}` rewritten, at every depth, as `(a OR b OR ...)`. */
  function Debrace<A>(i: Item<A>): Item<A>
    decreases i, 0
  {
    match i
    case Leaf(_, _) => i
    case Group(brace, branches) => Group(false, DebraceBranches(brace, branches))
  }

  function DebraceItems<A>(items: seq<Item<A>>): (r: seq<Item<A>>)
    ensures |r| == |items|
    decreases items, 1
  {
    if items == [] then [] else [Debrace(items[0])] + DebraceItems(items[1..])
  }

  /** What one branch is rewritten to. */
  function DebraceBranch<A>(brace: bool, branch: Branch<A>): seq<Branch<A>>
    decreases branch, 2
  {
    if brace then Singles(DebraceItems(branch.items)) else [Branch(DebraceItems(branch.items))]
  }

  function DebraceBranches<A>(brace: bool, branches: seq<Branch<A>>): seq<Branch<A>>
    decreases branches, 2
  {
    if branches == [] then [] else DebraceBranch(brace, branches[0]) + DebraceBranches(brace, branches[1..])
  }

  predicate AnyBranch<A, R>(matches: (A, R) -> bool, brace: bool, branches: seq<Branch<A>>, r: R) {
    exists k | 0 <= k < |branches| ::
      if brace then SomeHolds(matches, branches[k].items, r) else AllHold(matches, branches[k].items, r)
  }

  lemma AnyBranchConcat<A, R>(matches: (A, R) -> bool, brace: bool, left: seq<Branch<A>>, right: seq<Branch<A>>, r: R)
    ensures AnyBranch(matches, brace, left + right, r) <==>
            AnyBranch(matches, brace, left, r) || AnyBranch(matches, brace, right, r)
  {
    forall k | 0 <= k < |left|
      ensures (left + right)[k] == left[k]
    {
    }
    forall k | 0 <= k < |right|
      ensures (left + right)[|left| + k] == right[k]
    {
    }
  }

  lemma {:induction false} AnySingle<A, R>(matches: (A, R) -> bool, items: seq<Item<A>>, r: R)
    ensures AnyBranch(matches, false, Singles(items), r) <==> SomeHolds(matches, items, r)
  {
    if items != [] {
      AnySingle(matches, items[1..], r);
      AnyBranchConcat(matches, false, [Branch([items[0]])], Singles(items[1..]), r);
      assert AnyBranch(matches, false, [Branch([items[0]])], r) <==> Denotes(matches, items[0], r) by {
        var one := [Branch([items[0]])];
        assert one[0].items == [items[0]] && [items[0]][0] == items[0];
        assert AllHold(matches, [items[0]], r) <==> Denotes(matches, [items[0]][0], r);
      }
    }
  }

  /** A brace group means what the parenthesised `OR` of its items means, at any nesting depth. */
  lemma {:induction false} DebraceKeepsMeaning<A, R>(matches: (A, R) -> bool, i: Item<A>, r: R)
    ensures Denotes(matches, Debrace(i), r) == Denotes(matches, i, r)
    decreases i, 0
  {
    match i
    case Leaf(_, _) =>
    case Group(brace, branches) =>
      DebraceBranchesKeepsMeaning(matches, brace, branches, r);
      assert Denotes(matches, i, r) == AnyBranch(matches, brace, branches, r);
      assert Denotes(matches, Debrace(i), r) == AnyBranch(matches, false, DebraceBranches(brace, branches), r);
  }

  lemma {:induction false} DebraceItemsKeepsMeaning<A, R>(matches: (A, R) -> bool, items: seq<Item<A>>, r: R)
    ensures forall k | 0 <= k < |items| :: Denotes(matches, DebraceItems(items)[k], r) == Denotes(matches, items[k], r)
    decreases items, 1
  {
    if items != [] {
      DebraceKeepsMeaning(matches, items[0], r);
      DebraceItemsKeepsMeaning(matches, items[1..], r);
      forall k | 0 <= k < |items|
        ensures Denotes(matches, DebraceItems(items)[k], r) == Denotes(matches, items[k], r)
      {
        if k > 0 {
          assert DebraceItems(items)[k] == DebraceItems(items[1..])[k - 1];
        }
      }
    }
  }

  lemma OneBranch<A, R>(matches: (A, R) -> bool, brace: bool, branch: Branch<A>, r: R)
    ensures AnyBranch(matches, brace, [branch], r) ==
            (if brace then SomeHolds(matches, branch.items, r) else AllHold(matches, branch.items, r))
  {
    assert [branch][0] == branch;
  }

  lemma DebraceBranchKeepsMeaning<A, R>(matches: (A, R) -> bool, brace: bool, branch: Branch<A>, r: R)
    ensures AnyBranch(matches, false, DebraceBranch(brace, branch), r) == AnyBranch(matches, brace, [branch], r)
    decreases branch, 2
  {
    DebraceItemsKeepsMeaning(matches, branch.items, r);
    OneBranch(matches, brace, branch, r);
    if brace {
      AnySingle(matches, DebraceItems(branch.items), r);
    } else {
      OneBranch(matches, false, Branch(DebraceItems(branch.items)), r);
    }
  }

  lemma {:induction false} DebraceBranchesKeepsMeaning<A, R>(matches: (A, R) -> bool, brace: bool,
      branches: seq<Branch<A>>, r: R)
    ensures AnyBranch(matches, false, DebraceBranches(brace, branches), r) == AnyBranch(matches, brace, branches, r)
    decreases branches, 2
  {
    if branches != [] {
      DebraceBranchKeepsMeaning(matches, brace, branches[0], r);
      DebraceBranchesKeepsMeaning(matches, brace, branches[1..], r);
      AnyBranchConcat(matches, false, DebraceBranch(brace, branches[0]), DebraceBranches(brace, branches[1..]), r);
      AnyBranchConcat(matches, brace, [branches[0]], branches[1..], r);
      assert [branches[0]] + branches[1..] == branches;
    }
  }

  predicate BraceFree<A>(i: Item<A>)
    decreases i, 0
  {
    match i
    case Leaf(_, _) => true
    case Group(brace, branches) => !brace && BraceFreeBranches(branches)
  }

  predicate BraceFreeItems<A>(items: seq<Item<A>>)
    decreases items, 1
  {
    items == [] || (BraceFree(items[0]) && BraceFreeItems(items[1..]))
  }

  predicate BraceFreeBranches<A>(branches: seq<Branch<A>>)
    decreases branches, 2
  {
    branches == [] || (BraceFreeItems(branches[0].items) && BraceFreeBranches(branches[1..]))
  }

  /** Well-formed branches without any brace group. */
  ghost predicate Plain<A>(accepts: A -> bool, branches: seq<Branch<A>>) {
    WellFormedBranches(accepts, branches) && BraceFreeBranches(branches)
  }

  lemma {:induction false} PlainConcat<A>(accepts: A -> bool, left: seq<Branch<A>>, right: seq<Branch<A>>)
    requires Plain(accepts, left) && Plain(accepts, right)
    ensures Plain(accepts, left + right)
  {
    if left == [] {
      assert left + right == right;
    } else {
      assert (left + right)[1..] == left[1..] + right;
      PlainConcat(accepts, left[1..], right);
    }
  }

  lemma {:induction false} PlainSingles<A>(accepts: A -> bool, items: seq<Item<A>>)
    requires WellFormedBranch(accepts, items) && BraceFreeItems(items)
    ensures Plain(accepts, Singles(items)) && |Singles(items)| == |items|
  {
    if items != [] {
      PlainSingles(accepts, items[1..]);
      PlainSingle(accepts, items[0]);
      PlainConcat(accepts, [Branch([items[0]])], Singles(items[1..]));
    }
  }

  lemma PlainSingle<A>(accepts: A -> bool, i: Item<A>)
    requires WellFormed(accepts, i) && BraceFree(i)
    ensures Plain(accepts, [Branch([i])])
  {
    var branches := [Branch([i])];
    assert [i][1..] == [] && branches[1..] == [] && branches[0].items == [i];
    assert WellFormedBranch(accepts, [i][1..]) && WellFormedBranches(accepts, branches[1..]);
    assert BraceFreeItems([i][1..]) && BraceFreeBranches(branches[1..]);
    assert WellFormedBranch(accepts, [i]) && BraceFreeItems([i]);
  }

  /** The rewriting leaves a well-formed item without braces. */
  lemma {:induction false} DebraceIsPlain<A>(accepts: A -> bool, i: Item<A>)
    requires WellFormed(accepts, i)
    ensures WellFormed(accepts, Debrace(i)) && BraceFree(Debrace(i))
    decreases i, 0
  {
    match i
    case Leaf(_, _) =>
    case Group(brace, branches) => DebraceBranchesIsPlain(accepts, brace, branches);
  }

  lemma {:induction false} DebraceItemsIsPlain<A>(accepts: A -> bool, items: seq<Item<A>>)
    requires WellFormedBranch(accepts, items)
    ensures WellFormedBranch(accepts, DebraceItems(items)) && BraceFreeItems(DebraceItems(items))
    decreases items, 1
  {
    if items != [] {
      DebraceIsPlain(accepts, items[0]);
      DebraceItemsIsPlain(accepts, items[1..]);
      assert DebraceItems(items)[1..] == DebraceItems(items[1..]);
    }
  }

  lemma {:induction false} DebraceBranchesIsPlain<A>(accepts: A -> bool, brace: bool, branches: seq<Branch<A>>)
    requires WellFormedBranches(accepts, branches)
    ensures Plain(accepts, DebraceBranches(brace, branches))
            && (branches != [] ==> DebraceBranches(brace, branches) != [])
    decreases branches, 2
  {
    if branches != [] {
      var items := DebraceItems(branches[0].items);
      DebraceItemsIsPlain(accepts, branches[0].items);
      DebraceBranchesIsPlain(accepts, brace, branches[1..]);
      PlainSingles(accepts, items);
      PlainConcat(accepts, if brace then Singles(items) else [Branch(items)], DebraceBranches(brace, branches[1..]));
    }
  }

  /** Any query can be written without braces: the rewritten one is in the grammar and is
      satisfied by the same resources. */
  lemma BracesAreSugar<A, R>(accepts: A -> bool, matches: (A, R) -> bool, query: seq<Branch<A>>, r: R)
    requires query != [] && WellFormedBranches(accepts, query)
    ensures var plain := DebraceBranches(false, query);
            && IsQuery(accepts, plain) && BraceFreeBranches(plain)
            && Satisfies(matches, plain, r) == Satisfies(matches, query, r)
  {
    DebraceBranchesIsPlain(accepts, false, query);
    DebraceBranchesKeepsMeaning(matches, false, query, r);
    assert Satisfies(matches, query, r) == AnyBranch(matches, false, query, r);
    assert Satisfies(matches, DebraceBranches(false, query), r) ==
           AnyBranch(matches, false, DebraceBranches(false, query), r);
  }
}
