/**
 `compile_gmail_query` as it runs: one index shared by nested calls of
 `Expression`, lists of predicate closures grown in a loop, and a closure over
 them at the end.
 */
module GmailQueryCompiler {
  import opened Prelude
  import opened GmailQuery

  type Groups<!R> = seq<seq<R -> bool>>

  /** The items of all branches, in order. */
  function Flat<A>(branches: seq<Branch<A>>): seq<Item<A>> {
    if branches == [] then [] else Flat(branches[..|branches| - 1]) + Last(branches).items
  }

  lemma FlatPush<A>(branches: seq<Branch<A>>, i: Item<A>)
    requires branches != []
    ensures Flat(Push(branches, i)) == Flat(branches) + [i]
  {
    assert Push(branches, i)[..|branches| - 1] == branches[..|branches| - 1];
  }

  lemma FlatOpen<A>(branches: seq<Branch<A>>)
    ensures Flat(branches + [Branch([])]) == Flat(branches)
  {
    assert (branches + [Branch([])])[..|branches|] == branches;
  }

  lemma {:induction false} SomeInFlat<A, R>(matches: (A, R) -> bool, branches: seq<Branch<A>>, r: R)
    ensures AnyBranch(matches, true, branches, r) <==> SomeHolds(matches, Flat(branches), r)
  {
    if branches != [] {
      var init, last := branches[..|branches| - 1], Last(branches);
      SomeInFlat(matches, init, r);
      assert init + [last] == branches;
      AnyBranchConcat(matches, true, init, [last], r);
      assert AnyBranch(matches, true, [last], r) <==> SomeHolds(matches, last.items, r) by {
        assert [last][0] == last;
      }
      SomeConcat(matches, Flat(init), last.items, r);
    }
  }

  lemma SomeConcat<A, R>(matches: (A, R) -> bool, left: seq<Item<A>>, right: seq<Item<A>>, r: R)
    ensures SomeHolds(matches, left + right, r) <==> SomeHolds(matches, left, r) || SomeHolds(matches, right, r)
  {
    forall k | 0 <= k < |left|
      ensures (left + right)[k] == left[k]
    {
    }
    forall k | 0 <= k < |right|
      ensures (left + right)[|left| + k] == right[k]
    {
    }
  }

  /** A closure that decides an item. */
  ghost predicate Decides<A, R(!new)>(matches: (A, R) -> bool, p: R -> bool, i: Item<A>) {
    forall r :: p(r) == Denotes(matches, i, r)
  }

  /** Outside braces the groups of closures are the branches, item by item. */
  ghost predicate MirrorsBranches<A, R(!new)>(matches: (A, R) -> bool, groups: Groups<R>, branches: seq<Branch<A>>) {
    && |groups| == |branches|
    && forall k | 0 <= k < |groups| ::
         |groups[k]| == |branches[k].items| && forall j | 0 <= j < |groups[k]| ::
             Decides(matches, groups[k][j], branches[k].items[j])
  }

  /** Inside braces every item stands in a group of its own; an empty group is open exactly
      after an `OR` or at the start. */
  ghost predicate MirrorsItems<A, R(!new)>(matches: (A, R) -> bool, groups: Groups<R>, branches: seq<Branch<A>>)
    requires branches != []
  {
    var items := Flat(branches);
    && |groups| == |items| + (if Last(branches).items == [] then 1 else 0)
    && (forall k | 0 <= k < |items| :: |groups[k]| == 1 && Decides(matches, groups[k][0], items[k]))
    && (Last(branches).items == [] ==> Last(groups) == [])
  }

  ghost predicate Mirrors<A, R(!new)>(matches: (A, R) -> bool, anyMode: bool, groups: Groups<R>,
      branches: seq<Branch<A>>)
    requires branches != []
  {
    && groups != [] && (Last(groups) == [] <==> Last(branches).items == [])
    && if anyMode then MirrorsItems(matches, groups, branches) else MirrorsBranches(matches, groups, branches)
  }

  predicate GroupHolds<R>(group: seq<R -> bool>, r: R) {
    forall j | 0 <= j < |group| :: group[j](r)
  }

  predicate GroupsHold<R>(groups: Groups<R>, r: R) {
    exists g | 0 <= g < |groups| :: GroupHolds(groups[g], r)
  }

  function WithItem<R>(anyMode: bool, groups: Groups<R>, p: R -> bool): Groups<R>
    requires groups != []
  {
    var started := if anyMode && |Last(groups)| > 0 then groups + [[]] else groups;
    started[..|started| - 1] + [Last(started) + [p]]
  }

  lemma MirrorsPush<A, R(!new)>(matches: (A, R) -> bool, anyMode: bool, groups: Groups<R>, branches: seq<Branch<A>>,
      p: R -> bool, i: Item<A>)
    requires branches != [] && Mirrors(matches, anyMode, groups, branches) && Decides(matches, p, i)
    ensures Mirrors(matches, anyMode, WithItem(anyMode, groups, p), Push(branches, i))
  {
    if anyMode {
      MirrorsItemsPush(matches, groups, branches, p, i);
    } else {
      MirrorsBranchesPush(matches, groups, branches, p, i);
    }
  }

  lemma MirrorsItemsPush<A, R(!new)>(matches: (A, R) -> bool, groups: Groups<R>, branches: seq<Branch<A>>, p: R -> bool,
      i: Item<A>)
    requires branches != [] && Mirrors(matches, true, groups, branches) && Decides(matches, p, i)
    ensures Mirrors(matches, true, WithItem(true, groups, p), Push(branches, i))
  {
    FlatPush(branches, i);
  }

  lemma MirrorsBranchesPush<A, R(!new)>(matches: (A, R) -> bool, groups: Groups<R>, branches: seq<Branch<A>>,
      p: R -> bool, i: Item<A>)
    requires branches != [] && Mirrors(matches, false, groups, branches) && Decides(matches, p, i)
    ensures Mirrors(matches, false, WithItem(false, groups, p), Push(branches, i))
  {
  }

  lemma MirrorsOpen<A, R(!new)>(matches: (A, R) -> bool, anyMode: bool, groups: Groups<R>, branches: seq<Branch<A>>)
    requires branches != [] && Mirrors(matches, anyMode, groups, branches) && Last(branches).items != []
    ensures Mirrors(matches, anyMode, groups + [[]], branches + [Branch([])])
  {
    FlatOpen(branches);
  }

  /** Once no branch is open the closures together decide the expression. */
  lemma MirrorsMeaning<A, R(!new)>(matches: (A, R) -> bool, anyMode: bool, groups: Groups<R>,
      branches: seq<Branch<A>>, r: R)
    requires branches != [] && Mirrors(matches, anyMode, groups, branches)
    requires anyMode ==> Last(branches).items != []
    ensures GroupsHold(groups, r) <==> AnyBranch(matches, anyMode, branches, r)
  {
    if anyMode {
      SomeInFlat(matches, branches, r);
      var items := Flat(branches);
      assert forall k | 0 <= k < |items| :: GroupHolds(groups[k], r) == Denotes(matches, items[k], r);
    } else {
      forall k | 0 <= k < |groups|
        ensures GroupHolds(groups[k], r) == AllHold(matches, branches[k].items, r)
      {
        assert forall j | 0 <= j < |groups[k]| :: groups[k][j](r) == Denotes(matches, branches[k].items[j], r);
      }
    }
  }

  /** How an expression ends: at the last token, or at its closing token. */
  lemma ParseEnds<A>(accepts: A -> bool, tokens: seq<Token<A>>, index: nat, closing: Closing, branches: seq<Branch<A>>)
    requires index <= |tokens| && branches != [] && (index == |tokens| || Closes(closing, tokens[index]))
    ensures Parse(accepts, tokens[index..], closing, branches) ==
            if !closing.AtEnd? && index == |tokens| then Err(Unclosed)
            else if Last(branches).items == [] && (!closing.AtEnd? || |branches| > 1) then Err(EmptyBranch)
            else Ok((branches, tokens[if closing.AtEnd? then index else index + 1..]))
  {
    if index < |tokens| {
      assert tokens[index..][1..] == tokens[index + 1..];
    }
  }

  class Compiler<A(!new), R(!new)> {
    const accepts: A -> bool
    const matches: (A, R) -> bool
    const tokens: seq<Token<A>>
    var index: nat

    constructor (accepts: A -> bool, matches: (A, R) -> bool, tokens: seq<Token<A>>)
      ensures this.accepts == accepts && this.matches == matches && this.tokens == tokens && index == 0
    {
      this.accepts, this.matches, this.tokens, this.index := accepts, matches, tokens, 0;
    }

    ghost predicate Agrees(parsed: Parsed<A>, anyMode: bool, result: Result<R -> bool, Syntax>)
      reads this
    {
      match parsed
      case Err(e) => result == Err(e)
      case Ok((body, rest)) =>
        && result.Ok? && index <= |tokens| && rest == tokens[index..]
        && forall r :: result.value(r) == AnyBranch(matches, anyMode, body, r)
    }

    /** `_term`: an unusable term raises, a leading minus negates. */
    method CompileTerm(negated: bool, atom: A) returns (result: Result<R -> bool, Syntax>)
      ensures result.Err? <==> !accepts(atom)
      ensures result.Err? ==> result == Err(BadTerm)
      ensures result.Ok? ==> Decides(matches, result.value, Leaf(negated, atom))
    {
      if !accepts(atom) {
        return Err(BadTerm);
      }
      var m := matches;
      return Ok((r: R) => if negated then !m(atom, r) else m(atom, r));
    }

    /** The predicate of one term, or of one group by the recursive call after its opening token. */
    method ItemPredicate(token: Token<A>, ghost closing: Closing, ghost acc: seq<Branch<A>>)
      returns (result: Result<R -> bool, Syntax>, ghost item: Item<A>)
      requires index <= |tokens| && acc != [] && (token.Word? || token.LBrace? || token.LParen?)
      modifies this
      ensures old(index) <= index <= |tokens|
      ensures Parse(accepts, [token] + tokens[old(index)..], closing, acc) ==
              (if result.Err? then Err(result.error) else Parse(accepts, tokens[index..], closing, Push(acc, item)))
      ensures result.Ok? ==> Decides(matches, result.value, item)
      decreases |tokens| - index, 2
    {
      ghost var rest := tokens[index..];
      assert ([token] + rest)[1..] == rest;
      if token.Word? {
        item := Leaf(token.negated, token.atom);
        result := CompileTerm(token.negated, token.atom);
        return;
      }
      var brace := token.LBrace?;
      ghost var parsed := Parse(accepts, rest, ClosingOf(brace), [Branch([])]);
      item := Group(brace, if parsed.Ok? then parsed.value.0 else []);
      StepGroup(accepts, brace, rest, closing, acc);
      result := Expression(ClosingOf(brace), brace);
      if result.Ok? {
        forall r
          ensures result.value(r) == Denotes(matches, item, r)
        {
          assert result.value(r) == AnyBranch(matches, brace, parsed.value.0, r);
        }
      }
    }

    /** The loop of `expression`: the closures collected up to the closing token or the end. */
    method Conjunctions(closing: Closing, anyMode: bool)
        returns (result: Result<Groups<R>, Syntax>, ghost branches: seq<Branch<A>>)
      requires index <= |tokens|
      modifies this
      ensures old(index) <= index <= |tokens|
      ensures branches != [] && Parse(accepts, tokens[old(index)..], closing, [Branch([])]) ==
              (if result.Err? then Err(result.error) else Parse(accepts, tokens[index..], closing, branches))
      ensures result.Ok? ==> Mirrors(matches, anyMode, result.value, branches)
      ensures result.Ok? ==> index == |tokens| || Closes(closing, tokens[index])
      decreases |tokens| - index, 0
    {
      ghost var parsed := Parse(accepts, tokens[index..], closing, [Branch([])]);
      branches := [Branch([])];
      var conjunctions: Groups<R> := [[]];
      while index < |tokens| && !Closes(closing, tokens[index])
        invariant old(index) <= index <= |tokens|
        invariant branches != [] && Mirrors(matches, anyMode, conjunctions, branches)
        invariant Parse(accepts, tokens[index..], closing, branches) == parsed
        decreases |tokens| - index
      {
        var token := tokens[index];
        assert tokens[index..] == [token] + tokens[index + 1..];
        index := index + 1;
        if token.RBrace? || token.RParen? {
          return Err(Unbalanced), branches;
        }
        if token.Or? {
          if |Last(conjunctions)| == 0 {
            return Err(EmptyOr), branches;
          }
          MirrorsOpen(matches, anyMode, conjunctions, branches);
          conjunctions, branches := conjunctions + [[]], branches + [Branch([])];
          continue;
        }
        var item;
        ghost var parsedItem;
        item, parsedItem := ItemPredicate(token, closing, branches);
        if item.Err? {
          return Err(item.error), branches;
        }
        MirrorsPush(matches, anyMode, conjunctions, branches, item.value, parsedItem);
        conjunctions, branches := WithItem(anyMode, conjunctions, item.value), Push(branches, parsedItem);
      }
      result := Ok(conjunctions);
    }

    /** The inner function `expression`. */
    method Expression(closing: Closing, anyMode: bool) returns (result: Result<R -> bool, Syntax>)
      requires index <= |tokens| && (anyMode ==> !closing.AtEnd?)
      modifies this
      ensures old(index) <= index <= |tokens|
      ensures Agrees(Parse(accepts, tokens[old(index)..], closing, [Branch([])]), anyMode, result)
      decreases |tokens| - index, 1
    {
      var collected;
      ghost var branches;
      collected, branches := Conjunctions(closing, anyMode);
      if collected.Err? {
        return Err(collected.error);
      }
      var conjunctions := collected.value;
      ParseEnds(accepts, tokens, index, closing, branches);
      if !closing.AtEnd? {
        if index == |tokens| {
          return Err(Unclosed);
        }
        index := index + 1;
      }
      if |Last(conjunctions)| == 0 && (!closing.AtEnd? || |conjunctions| > 1) {
        return Err(EmptyBranch);
      }
      forall r
        ensures GroupsHold(conjunctions, r) == AnyBranch(matches, anyMode, branches, r)
      {
        MirrorsMeaning(matches, anyMode, conjunctions, branches, r);
      }
      result := Ok((r: R) => GroupsHold(conjunctions, r));
    }
  }

  /** `compile_gmail_query` after tokenising. */
  method CompileGmailQuery<A(!new), R(!new)>(accepts: A -> bool, matches: (A, R) -> bool, tokens: seq<Token<A>>)
    returns (result: Result<R -> bool, Syntax>)
    ensures result.Ok? <==> exists query: seq<Branch<A>> :: IsQuery(accepts, query) && PrintBranches(query) == tokens
    ensures result.Ok? ==>
      forall query: seq<Branch<A>>, r :: IsQuery(accepts, query) && PrintBranches(query) == tokens ==>
        result.value(r) == Satisfies(matches, query, r)
    ensures result != Err(Trailing)
  {
    var compiler := new Compiler(accepts, matches, tokens);
    ghost var parsed := ParseQuery(accepts, tokens);
    assert tokens[0..] == tokens;
    result := compiler.Expression(AtEnd, false);
    if parsed.Ok? {
      AcceptsExactlyTheGrammar(accepts, tokens, parsed.value.0);
    }
    forall query: seq<Branch<A>> | IsQuery(accepts, query) && PrintBranches(query) == tokens
      ensures parsed == Ok((query, []))
    {
      AcceptsExactlyTheGrammar(accepts, tokens, query);
    }
    if result.Err? {
      return;
    }
    if compiler.index != |tokens| {
      return Err(Trailing);
    }
  }
}
