/**
 * The theory of a table-driven bottom-up parser: whenever its moves are coherent with an
 * automaton of items, its runs end, accept only derivable token sequences, and accept all of them.
 */
module LRTheory {
  datatype Token = Token(kind: int, text: string)
  datatype Tree = Leaf(token: Token) | Node(prod: int, kids: seq<Tree>)
  datatype Move = Shift(to: int) | Reduce(prod: int) | Accept | Fail

  const EndKind: int := 1

  /**
   * A grammar with productions 1 to prods, and a parser for it with states from 0 on.
   * next gives the transitions (or -1), item(s, p, d) says that in state s the first d
   * symbols of production p may have been read, and move is what the tables say to do.
   */
  datatype Parser = Parser(
    states: int,
    prods: int,
    start: int,
    rhs: int -> seq<int>,
    lhs: int -> int,
    terminal: int -> bool,
    legal: int -> bool,
    next: (int, int) -> int,
    item: (int, int, int) -> bool,
    move: (int, int) -> Move,
    goto: (int, int) -> int,
    rank: int -> nat,
    mayFollow: (int, int) -> bool)
  {
    ghost predicate IsState(s: int) { 0 <= s < states }
    ghost predicate IsProd(p: int) { 1 <= p <= prods }

    function Root(t: Tree): int {
      match t
      case Leaf(tok) => tok.kind
      case Node(p, _) => lhs(p)
    }

    /** A derivation: every node applies a production to its children. */
    ghost predicate Derives(t: Tree) {
      match t
      case Leaf(tok) => terminal(tok.kind)
      case Node(p, kids) =>
        && IsProd(p) && |kids| == |rhs(p)|
        && forall i :: 0 <= i < |kids| ==> Root(kids[i]) == rhs(p)[i] && Derives(kids[i])
    }

    ghost predicate Document(t: Tree) {
      Derives(t) && Root(t) == start
    }

    ghost predicate LegalTokens(toks: seq<Token>) {
      forall i :: 0 <= i < |toks| ==> legal(toks[i].kind)
    }

    /** Transitions lead to states other than the initial one, and items go along with them. */
    ghost predicate ItemsCoherent() {
      && states > 1 && next(0, start) == 1
      && (forall s, x :: next(s, x) == -1 || 1 <= next(s, x) < states)
      && (forall s, x :: next(s, x) == 1 ==> s == 0 && x == start)
      && (forall s, p, d :: item(s, p, d) ==> IsState(s) && IsProd(p) && 0 <= d <= |rhs(p)| && (s == 0 ==> d == 0))
      && (forall s, p {:trigger next(s, lhs(p))} {:trigger item(s, p, 0)} :: IsState(s) && IsProd(p) ==>
          (item(s, p, 0) <==> next(s, lhs(p)) != -1))
      && (forall s, p, d {:trigger item(s, p, d), next(s, rhs(p)[d])} :: item(s, p, d) && d < |rhs(p)| ==>
            next(s, rhs(p)[d]) != -1 && item(next(s, rhs(p)[d]), p, d + 1))
      && (forall s, x, p, d {:trigger item(next(s, x), p, d)} :: next(s, x) != -1 && item(next(s, x), p, d) && d > 0 ==>
            rhs(p)[d - 1] == x && item(s, p, d - 1))
    }

    /** A move is one the automaton allows. */
    ghost predicate Justified(s: int, k: int, m: Move) {
      match m
      case Shift(to) => terminal(k) && to == next(s, k) != -1
      case Reduce(p) => item(s, p, |rhs(p)|)
      case Accept => s == 1 && k == EndKind
      case Fail => true
    }

    /** The tables move along the automaton. */
    ghost predicate MovesJustified() {
      forall s, k {:trigger move(s, k)} :: IsState(s) && (legal(k) || k == EndKind) ==> Justified(s, k, move(s, k))
    }

    ghost predicate GotosCoherent() {
      forall s, p {:trigger goto(p, s)} :: IsState(s) && IsProd(p) && next(s, lhs(p)) != -1 ==>
          goto(p, s) == next(s, lhs(p))
    }

    /** The tables miss no shift, and reduce a complete item before every token that may follow it. */
    ghost predicate ShiftsCoherent() {
      forall s, k {:trigger next(s, k), terminal(k)} :: IsState(s) && terminal(k) && next(s, k) != -1 ==>
          move(s, k).Shift?
    }

    ghost predicate ReducesCoherent() {
      forall s, p, k {:trigger ReducesAt(s, p, k)} :: ReducesAt(s, p, k)
    }

    ghost predicate ReducesAt(s: int, p: int, k: int) {
      item(s, p, |rhs(p)|) && (legal(k) || k == EndKind) && mayFollow(lhs(p), k) ==> move(s, k) == Reduce(p)
    }

    ghost predicate MovesCoherent() {
      && (forall k :: terminal(k) ==> legal(k) && k != EndKind) && !legal(EndKind) && !terminal(start)
      && MovesJustified() && GotosCoherent() && ShiftsCoherent() && ReducesCoherent()
      && move(1, EndKind) == Accept && mayFollow(start, EndKind)
    }

    /** Ranks pay for reductions that do not shorten the stack. */
    ghost predicate RanksCoherent() {
      forall s, p, b {:trigger item(s, p, |rhs(p)|), next(b, lhs(p))} ::
        item(s, p, |rhs(p)|) && next(b, lhs(p)) != -1 && (|rhs(p)| == 0 ==> b == s) ==>
          1 + rank(next(b, lhs(p))) < |rhs(p)| + rank(s)
    }

    /** What comes after a child of a derived node may follow that child. */
    ghost predicate FollowCoherent() {
      forall t: Tree, n: nat, rest {:trigger KidMayFollow(t, n, rest)} :: KidMayFollow(t, n, rest)
    }

    ghost predicate KidMayFollow(t: Tree, n: nat, rest: seq<Token>) {
      Derives(t) && t.Node? && n < |t.kids| && mayFollow(Root(t), Peek(rest)) ==>
        mayFollow(Root(t.kids[n]), Peek(YieldAll(t.kids[n + 1..]) + rest))
    }

    ghost predicate Coherent() {
      ItemsCoherent() && MovesCoherent() && RanksCoherent()
    }
  }

  /** The tokens at the leaves, from left to right. */
  function Yield(t: Tree): seq<Token> {
    match t
    case Leaf(tok) => [tok]
    case Node(_, kids) => YieldAll(kids)
  }

  function YieldAll(ts: seq<Tree>): seq<Token> {
    if ts == [] then [] else Yield(ts[0]) + YieldAll(ts[1..])
  }

  /** The next token, or the end of input. */
  function Peek(rest: seq<Token>): int {
    if rest == [] then EndKind else rest[0].kind
  }

  lemma {:induction false} YieldAllAppend(a: seq<Tree>, b: seq<Tree>)
    ensures YieldAll(a + b) == YieldAll(a) + YieldAll(b)
  {
    if a == [] {
      assert a + b == b;
    } else {
      YieldAllAppend(a[1..], b);
      assert (a + b)[0] == a[0] && (a + b)[1..] == a[1..] + b;
      assert YieldAll(a + b) == Yield(a[0]) + (YieldAll(a[1..]) + YieldAll(b));
    }
  }

  lemma YieldOne(t: Tree)
    ensures YieldAll([t]) == Yield(t)
  {
    assert [t][1..] == [];
  }

  datatype Frame = Frame(state: int, tree: Tree)
  /** The stack above the initial state, and the tokens not shifted yet. */
  datatype Config = Config(stack: seq<Frame>, rest: seq<Token>)
  datatype Outcome = Accepts(tree: Tree) | Rejects

  function Top(stack: seq<Frame>): int {
    if stack == [] then 0 else stack[|stack| - 1].state
  }

  function Trees(stack: seq<Frame>): (r: seq<Tree>)
    ensures |r| == |stack|
  {
    seq(|stack|, i requires 0 <= i < |stack| => stack[i].tree)
  }

  /** Consecutive states of a stack are joined by transitions on the roots of its trees. */
  ghost predicate Linked(g: Parser, stack: seq<Frame>) {
    && (forall i :: 0 <= i < |stack| ==> g.Derives(stack[i].tree) && 1 <= stack[i].state < g.states)
    && (forall i :: 0 <= i < |stack| ==> LinkAt(g, stack, i))
  }

  ghost predicate LinkAt(g: Parser, stack: seq<Frame>, i: nat)
    requires i < |stack|
  {
    g.next(Top(stack[..i]), g.Root(stack[i].tree)) == stack[i].state
  }

  ghost predicate Inv(g: Parser, c: Config) {
    g.Coherent() && Linked(g, c.stack) && g.LegalTokens(c.rest)
  }

  /** The tokens a configuration stands for: those under its trees, then those to come. */
  function Frontier(c: Config): seq<Token> {
    YieldAll(Trees(c.stack)) + c.rest
  }

  lemma LinkedPush(g: Parser, stack: seq<Frame>, f: Frame)
    requires Linked(g, stack) && g.Derives(f.tree) && 1 <= f.state < g.states
    requires g.next(Top(stack), g.Root(f.tree)) == f.state
    ensures Linked(g, stack + [f])
  {
    var s := stack + [f];
    forall i | 0 <= i < |s| ensures LinkAt(g, s, i) {
      assert s[..i] == stack[..i];
      assert stack[..|stack|] == stack;
      assert i < |stack| ==> LinkAt(g, stack, i);
    }
  }

  lemma LinkedPrefix(g: Parser, stack: seq<Frame>, n: nat)
    requires Linked(g, stack) && n <= |stack|
    ensures Linked(g, stack[..n])
  {
    forall i | 0 <= i < n ensures LinkAt(g, stack[..n], i) {
      assert stack[..n][..i] == stack[..i];
      assert LinkAt(g, stack, i);
    }
  }

  /** The state k frames below the top. */
  function StateAt(stack: seq<Frame>, k: nat): int
    requires k <= |stack|
  {
    Top(stack[..|stack| - k])
  }

  lemma StateInRange(g: Parser, stack: seq<Frame>, k: nat)
    requires Linked(g, stack) && g.states > 0 && k <= |stack|
    ensures g.IsState(StateAt(stack, k))
  {
  }

  /** In a linked stack, the symbols before an item's dot are the roots on top of the stack. */
  lemma {:induction false} ItemOnStack(g: Parser, stack: seq<Frame>, p: int, dot: nat, k: nat)
    requires g.ItemsCoherent() && Linked(g, stack) && k <= dot && g.item(Top(stack), p, dot)
    ensures dot <= |g.rhs(p)| && k <= |stack| && g.item(StateAt(stack, k), p, dot - k)
    ensures forall i :: |stack| - k <= i < |stack| ==> g.Root(stack[i].tree) == g.rhs(p)[dot - |stack| + i]
  {
    if k == 0 {
      assert stack[..|stack|] == stack;
    } else {
      ItemOnStack(g, stack, p, dot, k - 1);
      ItemBelow(g, stack, |stack| - k, p, dot - k + 1);
    }
  }

  /** One frame down, the dot is one symbol back. */
  lemma ItemBelow(g: Parser, stack: seq<Frame>, i: int, p: int, dot: int)
    requires g.ItemsCoherent() && Linked(g, stack) && -1 <= i < |stack|
    requires dot > 0 && g.item(Top(stack[..i + 1]), p, dot)
    ensures 0 <= i && dot <= |g.rhs(p)| && g.item(Top(stack[..i]), p, dot - 1)
    ensures g.Root(stack[i].tree) == g.rhs(p)[dot - 1]
  {
    if i >= 0 {
      assert stack[..i + 1][i] == stack[i];
      assert LinkAt(g, stack, i);
    }
  }

  /** The frame that reducing by production p pushes on what is left of the stack. */
  ghost function ReducedFrame(g: Parser, stack: seq<Frame>, p: int): (f: Frame)
    requires g.ItemsCoherent() && g.MovesCoherent() && Linked(g, stack) && g.item(Top(stack), p, |g.rhs(p)|)
    ensures g.Derives(f.tree) && g.Root(f.tree) == g.lhs(p) && |g.rhs(p)| <= |stack|
    ensures f.state == g.next(StateAt(stack, |g.rhs(p)|), g.lhs(p)) && 1 <= f.state < g.states
  {
    var n := |g.rhs(p)|;
    ItemOnStack(g, stack, p, n, n);
    StateInRange(g, stack, n);
    Frame(g.goto(p, StateAt(stack, n)), Node(p, Trees(stack)[|stack| - n..]))
  }

  /** A production to be reduced finds its whole right side on top of the stack. */
  lemma HandleOnTop(g: Parser, stack: seq<Frame>, p: int)
    requires g.ItemsCoherent() && g.MovesCoherent() && Linked(g, stack) && g.item(Top(stack), p, |g.rhs(p)|)
    ensures g.IsProd(p) && |g.rhs(p)| <= |stack| && g.IsState(StateAt(stack, |g.rhs(p)|))
    ensures forall i :: 0 <= i < |g.rhs(p)| ==> g.Root(stack[|stack| - |g.rhs(p)| + i].tree) == g.rhs(p)[i]
    ensures ReducedFrame(g, stack, p)
      == Frame(g.goto(p, StateAt(stack, |g.rhs(p)|)), Node(p, Trees(stack)[|stack| - |g.rhs(p)|..]))
  {
    var n := |g.rhs(p)|;
    var f := ReducedFrame(g, stack, p);
    StateInRange(g, stack, n);
    assert forall i :: 0 <= i < n ==> f.tree.kids[i] == stack[|stack| - n + i].tree;
  }

  function Weight(g: Parser, stack: seq<Frame>): nat {
    |stack| + g.rank(Top(stack))
  }

  lemma ReducedLinked(g: Parser, stack: seq<Frame>, p: int)
    requires g.Coherent() && Linked(g, stack) && g.item(Top(stack), p, |g.rhs(p)|)
    ensures |g.rhs(p)| <= |stack|
    ensures Linked(g, stack[..|stack| - |g.rhs(p)|] + [ReducedFrame(g, stack, p)])
    ensures Weight(g, stack[..|stack| - |g.rhs(p)|] + [ReducedFrame(g, stack, p)]) < Weight(g, stack)
  {
    var f := ReducedFrame(g, stack, p);
    LinkedPrefix(g, stack, |stack| - |g.rhs(p)|);
    LinkedPush(g, stack[..|stack| - |g.rhs(p)|], f);
    assert stack[..|stack|] == stack;
  }

  ghost function Reduced(g: Parser, c: Config, p: int): (r: Config)
    requires Inv(g, c) && g.item(Top(c.stack), p, |g.rhs(p)|)
    ensures Inv(g, r) && r.rest == c.rest && Weight(g, r.stack) < Weight(g, c.stack)
  {
    ReducedLinked(g, c.stack, p);
    Config(c.stack[..|c.stack| - |g.rhs(p)|] + [ReducedFrame(g, c.stack, p)], c.rest)
  }

  ghost function Shifted(g: Parser, c: Config, to: int): (r: Config)
    requires Inv(g, c) && c.rest != [] && g.terminal(c.rest[0].kind) && to == g.next(Top(c.stack), c.rest[0].kind) != -1
    ensures Inv(g, r) && |r.rest| < |c.rest|
  {
    LinkedPush(g, c.stack, Frame(to, Leaf(c.rest[0])));
    Config(c.stack + [Frame(to, Leaf(c.rest[0]))], c.rest[1..])
  }

  datatype Status = Going(config: Config) | Done(outcome: Outcome)

  /** One move of the parser. Every move that shifts nothing makes the stack lighter. */
  ghost function Step(g: Parser, c: Config): (r: Status)
    requires Inv(g, c)
    ensures r.Going? ==> Inv(g, r.config) && |r.config.rest| <= |c.rest|
    ensures r.Going? && |r.config.rest| == |c.rest| ==> Weight(g, r.config.stack) < Weight(g, c.stack)
  {
    TopInRange(g, c.stack);
    match g.move(Top(c.stack), Peek(c.rest))
    case Shift(to) => Going(Shifted(g, c, to))
    case Reduce(p) => Going(Reduced(g, c, p))
    case Accept => AcceptOnTop(g, c.stack); Done(Accepts(c.stack[0].tree))
    case Fail => Done(Rejects)
  }

  /** The run of the parser. */
  ghost function Run(g: Parser, c: Config): Outcome
    requires Inv(g, c)
    decreases |c.rest|, Weight(g, c.stack)
  {
    match Step(g, c)
    case Going(d) => Run(g, d)
    case Done(outcome) => outcome
  }

  lemma TopInRange(g: Parser, stack: seq<Frame>)
    requires Linked(g, stack) && g.states > 0
    ensures g.IsState(Top(stack))
  {
  }

  /** The accepting state stands on the initial state, over a whole document. */
  lemma AcceptOnTop(g: Parser, stack: seq<Frame>)
    requires g.ItemsCoherent() && Linked(g, stack) && Top(stack) == 1
    ensures |stack| == 1 && g.Document(stack[0].tree)
  {
    assert LinkAt(g, stack, |stack| - 1);
  }

  /** The stack a reduction leaves. */
  function AfterReduce(g: Parser, stack: seq<Frame>, p: int): seq<Frame>
    requires |g.rhs(p)| <= |stack|
  {
    var n := |g.rhs(p)|;
    stack[..|stack| - n] + [Frame(g.goto(p, StateAt(stack, n)), Node(p, Trees(stack)[|stack| - n..]))]
  }

  /** The roots on top of the stack spell a production's right side. */
  ghost predicate OnTop(g: Parser, stack: seq<Frame>, p: int) {
    && |g.rhs(p)| <= |stack|
    && forall i :: 0 <= i < |g.rhs(p)| ==> g.Root(stack[|stack| - |g.rhs(p)| + i].tree) == g.rhs(p)[i]
  }

  /** A move to reduce finds its production's right side on the stack. */
  lemma ReduceFinds(g: Parser, c: Config, p: int)
    requires Inv(g, c) && g.move(Top(c.stack), Peek(c.rest)) == Reduce(p)
    ensures g.IsProd(p) && OnTop(g, c.stack, p) && g.IsState(StateAt(c.stack, |g.rhs(p)|))
    ensures g.item(Top(c.stack), p, |g.rhs(p)|)
  {
    TopInRange(g, c.stack);
    assert g.Justified(Top(c.stack), Peek(c.rest), Reduce(p));
    HandleOnTop(g, c.stack, p);
  }

  /** What a move to reduce does to a run. */
  lemma RunReduces(g: Parser, c: Config, p: int)
    requires Inv(g, c) && g.move(Top(c.stack), Peek(c.rest)) == Reduce(p)
    ensures g.IsProd(p) && OnTop(g, c.stack, p) && g.IsState(StateAt(c.stack, |g.rhs(p)|))
    ensures var d := Config(AfterReduce(g, c.stack, p), c.rest);
      Inv(g, d) && Run(g, d) == Run(g, c) && Weight(g, d.stack) < Weight(g, c.stack)
  {
    ReduceFinds(g, c, p);
    assert Step(g, c) == Going(Reduced(g, c, p));
    assert Reduced(g, c, p) == Config(AfterReduce(g, c.stack, p), c.rest);
  }

  ghost function Parses(g: Parser, toks: seq<Token>): Outcome
    requires g.Coherent() && g.LegalTokens(toks)
  {
    Run(g, Config([], toks))
  }

  /* ---- soundness ---- */

  /** A move keeps the tokens a configuration stands for, and accepting yields them. */
  lemma StepSound(g: Parser, c: Config)
    requires Inv(g, c)
    ensures match Step(g, c)
      case Going(d) => Frontier(d) == Frontier(c)
      case Done(Accepts(t)) => g.Document(t) && Yield(t) == Frontier(c)
      case Done(Rejects) => true
  {
    TopInRange(g, c.stack);
    match g.move(Top(c.stack), Peek(c.rest))
    case Shift(to) => ShiftedFrontier(c, to);
    case Reduce(p) => ReductionSound(g, c, p);
    case Accept => AcceptedFrontier(g, c);
    case Fail =>
  }

  lemma ReductionSound(g: Parser, c: Config, p: int)
    requires Inv(g, c) && g.item(Top(c.stack), p, |g.rhs(p)|)
    ensures Frontier(Reduced(g, c, p)) == Frontier(c)
  {
    ReducedFrontier(c, |g.rhs(p)|, ReducedFrame(g, c.stack, p));
  }

  lemma {:induction false} RunSound(g: Parser, c: Config)
    requires Inv(g, c) && Run(g, c).Accepts?
    ensures g.Document(Run(g, c).tree) && Yield(Run(g, c).tree) == Frontier(c)
    decreases |c.rest|, Weight(g, c.stack)
  {
    StepSound(g, c);
    match Step(g, c)
    case Going(d) => RunSound(g, d);
    case Done(_) =>
  }

  lemma AcceptedFrontier(g: Parser, c: Config)
    requires Inv(g, c) && Top(c.stack) == 1 && Peek(c.rest) == EndKind
    ensures |c.stack| == 1 && g.Document(c.stack[0].tree) && Yield(c.stack[0].tree) == Frontier(c)
  {
    AcceptOnTop(g, c.stack);
    assert Trees(c.stack) == [c.stack[0].tree];
    YieldOne(c.stack[0].tree);
    assert c.rest == [];
  }

  lemma ShiftedFrontier(c: Config, to: int)
    requires c.rest != []
    ensures Frontier(Config(c.stack + [Frame(to, Leaf(c.rest[0]))], c.rest[1..])) == Frontier(c)
  {
    var leaf := Leaf(c.rest[0]);
    YieldAllAppend(Trees(c.stack), [leaf]);
    YieldOne(leaf);
    assert Trees(c.stack + [Frame(to, leaf)]) == Trees(c.stack) + [leaf];
    assert c.rest == [c.rest[0]] + c.rest[1..];
  }

  lemma ReducedFrontier(c: Config, n: nat, f: Frame)
    requires n <= |c.stack| && Yield(f.tree) == YieldAll(Trees(c.stack)[|c.stack| - n..])
    ensures Frontier(Config(c.stack[..|c.stack| - n] + [f], c.rest)) == Frontier(c)
  {
    var base := c.stack[..|c.stack| - n];
    YieldAllAppend(Trees(base), Trees(c.stack)[|c.stack| - n..]);
    assert Trees(base) + Trees(c.stack)[|c.stack| - n..] == Trees(c.stack);
    YieldAllAppend(Trees(base), [f.tree]);
    YieldOne(f.tree);
    assert Trees(base + [f]) == Trees(base) + [f.tree];
  }

  /** The parser accepts only documents, and with a derivation of exactly the tokens it read. */
  lemma ParserSound(g: Parser, toks: seq<Token>)
    requires g.Coherent() && g.LegalTokens(toks) && Parses(g, toks).Accepts?
    ensures g.Document(Parses(g, toks).tree) && Yield(Parses(g, toks).tree) == toks
  {
    RunSound(g, Config([], toks));
    assert Trees([]) == [];
  }

  /* ---- completeness ---- */

  ghost function Pushed(g: Parser, stack: seq<Frame>, t: Tree): seq<Frame> {
    stack + [Frame(g.next(Top(stack), g.Root(t)), t)]
  }

  /** The stack after reading the first n of several trees. */
  ghost function PushedAll(g: Parser, stack: seq<Frame>, ts: seq<Tree>, n: nat): seq<Frame>
    requires n <= |ts|
  {
    if n == 0 then stack else Pushed(g, PushedAll(g, stack, ts, n - 1), ts[n - 1])
  }

  lemma {:induction false} PushedAllShape(g: Parser, stack: seq<Frame>, ts: seq<Tree>, n: nat)
    requires n <= |ts|
    ensures var full := PushedAll(g, stack, ts, n);
      |full| == |stack| + n && full[..|stack|] == stack && Trees(full)[|stack|..] == ts[..n]
  {
    if n > 0 {
      PushedAllShape(g, stack, ts, n - 1);
      var less, full := PushedAll(g, stack, ts, n - 1), PushedAll(g, stack, ts, n);
      assert full[..|stack|] == less[..|stack|];
      assert Trees(full) == Trees(less) + [ts[n - 1]];
      assert Trees(full)[|stack|..] == Trees(less)[|stack|..] + [ts[n - 1]];
      assert ts[..n] == ts[..n - 1] + [ts[n - 1]];
    }
  }

  /** Having read n children of a node, the parser is in a state with the dot after them. */
  lemma {:induction false} PushedAllItem(g: Parser, stack: seq<Frame>, t: Tree, n: nat)
    requires g.ItemsCoherent() && g.Derives(t) && t.Node? && n <= |t.kids| && g.item(Top(stack), t.prod, 0)
    ensures g.item(Top(PushedAll(g, stack, t.kids, n)), t.prod, n)
  {
    if n > 0 {
      PushedAllItem(g, stack, t, n - 1);
      assert g.Root(t.kids[n - 1]) == g.rhs(t.prod)[n - 1];
      assert g.next(Top(PushedAll(g, stack, t.kids, n - 1)), g.rhs(t.prod)[n - 1]) != -1;
    }
  }

  lemma {:induction false} YieldLegal(g: Parser, t: Tree)
    requires g.MovesCoherent() && g.Derives(t)
    ensures g.LegalTokens(Yield(t))
    decreases t, 1
  {
    if t.Node? {
      YieldAllLegal(g, t, 0);
      assert t.kids[0..] == t.kids;
    }
  }

  lemma {:induction false} YieldAllLegal(g: Parser, t: Tree, n: nat)
    requires g.MovesCoherent() && g.Derives(t) && t.Node? && n <= |t.kids|
    ensures g.LegalTokens(YieldAll(t.kids[n..]))
    decreases t, 0, |t.kids| - n
  {
    if n < |t.kids| {
      YieldLegal(g, t.kids[n]);
      YieldAllLegal(g, t, n + 1);
      assert t.kids[n..][1..] == t.kids[n + 1..];
    }
  }

  /**
   * Reading a derived tree, in a state that has a transition for its root, takes the parser
   * from before its tokens to just after them with that very tree on the stack.
   */
  lemma {:induction false} ReadsTree(g: Parser, stack: seq<Frame>, t: Tree, rest: seq<Token>)
    requires g.Coherent() && g.FollowCoherent() && Linked(g, stack) && g.Derives(t)
    requires g.LegalTokens(Yield(t) + rest) && g.LegalTokens(rest)
    requires g.next(Top(stack), g.Root(t)) != -1 && g.mayFollow(g.Root(t), Peek(rest))
    ensures Linked(g, Pushed(g, stack, t))
    ensures Run(g, Config(stack, Yield(t) + rest)) == Run(g, Config(Pushed(g, stack, t), rest))
    decreases t, 1
  {
    LinkedPush(g, stack, Frame(g.next(Top(stack), g.Root(t)), t));
    TopInRange(g, stack);
    match t
    case Leaf(tok) => ReadsLeaf(g, stack, tok, rest);
    case Node(p, kids) =>
      assert kids[|kids|..] == [] && YieldAll([]) + rest == rest;
      ReadsKids(g, stack, t, |kids|, rest);
      ReducesNode(g, stack, t, rest);
  }

  lemma ReadsLeaf(g: Parser, stack: seq<Frame>, tok: Token, rest: seq<Token>)
    requires g.Coherent() && Linked(g, stack) && g.terminal(tok.kind)
    requires g.LegalTokens([tok] + rest) && g.LegalTokens(rest)
    requires g.next(Top(stack), tok.kind) != -1 && Linked(g, Pushed(g, stack, Leaf(tok)))
    ensures Run(g, Config(stack, [tok] + rest)) == Run(g, Config(Pushed(g, stack, Leaf(tok)), rest))
  {
    TopInRange(g, stack);
    var c := Config(stack, [tok] + rest);
    assert g.move(Top(stack), tok.kind).Shift?;
    assert c.rest[1..] == rest;
    assert Shifted(g, c, g.next(Top(stack), tok.kind)) == Config(Pushed(g, stack, Leaf(tok)), rest);
  }

  /** Reading the first n children of a node. */
  lemma {:induction false} ReadsKids(g: Parser, stack: seq<Frame>, t: Tree, n: nat, rest: seq<Token>)
    requires g.Coherent() && g.FollowCoherent() && Linked(g, stack) && g.Derives(t) && t.Node? && n <= |t.kids|
    requires g.LegalTokens(Yield(t) + rest) && g.LegalTokens(YieldAll(t.kids[n..]) + rest)
    requires g.item(Top(stack), t.prod, 0) && g.mayFollow(g.Root(t), Peek(rest))
    ensures Linked(g, PushedAll(g, stack, t.kids, n))
    ensures Run(g, Config(stack, Yield(t) + rest)) ==
      Run(g, Config(PushedAll(g, stack, t.kids, n), YieldAll(t.kids[n..]) + rest))
    decreases t, 0, n
  {
    if n == 0 {
      assert t.kids[0..] == t.kids;
    } else {
      var kid, later := t.kids[n - 1], YieldAll(t.kids[n..]) + rest;
      KidYield(t.kids, n - 1, rest);
      YieldLegal(g, kid);
      ReadsKids(g, stack, t, n - 1, rest);
      PushedAllItem(g, stack, t, n - 1);
      assert g.KidMayFollow(t, n - 1, rest);
      assert g.next(Top(PushedAll(g, stack, t.kids, n - 1)), g.rhs(t.prod)[n - 1]) != -1;
      ReadsTree(g, PushedAll(g, stack, t.kids, n - 1), kid, later);
    }
  }

  lemma KidYield(kids: seq<Tree>, n: nat, rest: seq<Token>)
    requires n < |kids|
    ensures YieldAll(kids[n..]) + rest == Yield(kids[n]) + (YieldAll(kids[n + 1..]) + rest)
  {
    assert kids[n..][1..] == kids[n + 1..];
  }

  /** With all children on the stack, the parser reduces them to the node. */
  lemma ReducesNode(g: Parser, stack: seq<Frame>, t: Tree, rest: seq<Token>)
    requires g.Coherent() && g.Derives(t) && t.Node? && g.LegalTokens(rest)
    requires g.item(Top(stack), t.prod, 0) && g.mayFollow(g.Root(t), Peek(rest))
    requires Linked(g, PushedAll(g, stack, t.kids, |t.kids|)) && Linked(g, Pushed(g, stack, t))
    ensures Run(g, Config(PushedAll(g, stack, t.kids, |t.kids|), rest)) == Run(g, Config(Pushed(g, stack, t), rest))
  {
    var full := PushedAll(g, stack, t.kids, |t.kids|);
    PushedAllItem(g, stack, t, |t.kids|);
    ReducedNode(g, stack, t, rest);
    CompleteReduces(g, Config(full, rest), t.prod);
  }

  /** Reducing after the children of a node gives the node. */
  lemma ReducedNode(g: Parser, stack: seq<Frame>, t: Tree, rest: seq<Token>)
    requires g.Coherent() && g.Derives(t) && t.Node? && g.LegalTokens(rest)
    requires var full := PushedAll(g, stack, t.kids, |t.kids|);
      Linked(g, full) && g.item(Top(full), t.prod, |g.rhs(t.prod)|)
    ensures Reduced(g, Config(PushedAll(g, stack, t.kids, |t.kids|), rest), t.prod) == Config(Pushed(g, stack, t), rest)
  {
    PushedAllShape(g, stack, t.kids, |t.kids|);
    assert t.kids[..|t.kids|] == t.kids;
  }

  /** Where a complete item's left side may be followed, the parser reduces. */
  lemma CompleteReduces(g: Parser, c: Config, p: int)
    requires g.Coherent() && Inv(g, c) && g.item(Top(c.stack), p, |g.rhs(p)|) && g.mayFollow(g.lhs(p), Peek(c.rest))
    ensures Run(g, c) == Run(g, Reduced(g, c, p))
  {
    TopInRange(g, c.stack);
    assert g.ReducesAt(Top(c.stack), p, Peek(c.rest));
  }

  /** The parser accepts every document, and with that document as its tree. */
  lemma ParserComplete(g: Parser, t: Tree)
    requires g.Coherent() && g.FollowCoherent() && g.Document(t)
    ensures g.LegalTokens(Yield(t)) && Parses(g, Yield(t)) == Accepts(t)
  {
    YieldLegal(g, t);
    assert Yield(t) + [] == Yield(t);
    ReadsTree(g, [], t, []);
    AcceptsDocument(g, t);
  }

  lemma AcceptsDocument(g: Parser, t: Tree)
    requires g.Coherent() && Linked(g, Pushed(g, [], t)) && g.Document(t)
    ensures Run(g, Config(Pushed(g, [], t), [])) == Accepts(t)
  {
    assert Pushed(g, [], t) == [Frame(1, t)];
    assert g.move(1, EndKind) == Accept;
  }

  /** A token sequence is accepted exactly when it is the yield of a document. */
  lemma AcceptsExactlyDocuments(g: Parser, toks: seq<Token>)
    requires g.Coherent() && g.FollowCoherent() && g.LegalTokens(toks)
    ensures Parses(g, toks).Accepts? <==> exists t :: g.Document(t) && Yield(t) == toks
  {
    if Parses(g, toks).Accepts? {
      ParserSound(g, toks);
    }
    if t :| g.Document(t) && Yield(t) == toks {
      ParserComplete(g, t);
    }
  }

  /** A grammar with such a parser is unambiguous: a document is determined by its tokens. */
  lemma Unambiguous(g: Parser, t: Tree, u: Tree)
    requires g.Coherent() && g.FollowCoherent() && g.Document(t) && g.Document(u) && Yield(t) == Yield(u)
    ensures t == u
  {
    ParserComplete(g, t);
    ParserComplete(g, u);
  }
}
