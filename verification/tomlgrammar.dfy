/**
 * The TOML grammar, and the parser tables that goyacc generated for it.
 * Terminals are numbered as in the tables (1 is the end of input); a nonterminal is the
 * negative of its number.
 */
module TomlGrammar {
  import opened LRTheory

  const UnknownKind: int := 3
  const BoolKind: int := 5
  const KeyKind: int := 6
  const LeftKind: int := 7
  const LeftDoubleKind: int := 8
  const RightKind: int := 9
  const RightDoubleKind: int := 10
  const CommaKind: int := 11
  const EqualKind: int := 12
  const NumberKind: int := 13
  const StringKind: int := 14

  const EntrySym: int := -1
  const EntriesSym: int := -2
  const ValueSym: int := -3
  const ValuesSym: int := -4
  const TablesSym: int := -5
  const TableSym: int := -6
  const KeysSym: int := -7
  const TopSym: int := -8

  /** The right-hand side of each production, in the grammar's order. */
  function Rhs(prod: int): seq<int> {
    match prod
    case 1 => [EntriesSym, TablesSym]
    case 3 => [TablesSym, TableSym]
    case 4 => [LeftKind, KeysSym, RightKind, EntriesSym]
    case 5 => [LeftDoubleKind, KeysSym, RightDoubleKind, EntriesSym]
    case 6 => [KeyKind]
    case 7 => [KeysSym, KeyKind]
    case 9 => [EntriesSym, EntrySym]
    case 10 => [KeyKind, EqualKind, ValueSym]
    case 11 => [BoolKind]
    case 12 => [NumberKind]
    case 13 => [StringKind]
    case 14 => [LeftKind, ValuesSym, RightKind]
    case 15 => [ValueSym]
    case 16 => [ValuesSym, CommaKind, ValueSym]
    case _ => []
  }

  /** The left-hand side of each production. */
  function Lhs(prod: int): int {
    match prod
    case 1 => TopSym
    case 2 => TablesSym
    case 3 => TablesSym
    case 4 => TableSym
    case 5 => TableSym
    case 6 => KeysSym
    case 7 => KeysSym
    case 8 => EntriesSym
    case 9 => EntriesSym
    case 10 => EntrySym
    case 15 => ValuesSym
    case 16 => ValuesSym
    case _ => ValueSym
  }

  /* The generated tables. */

  const YyExca: seq<int> := [-1, 1, 1, -1, -2, 0]
  const YyLast: int := 28
  const YyFlag: int := -1000
  const YyErrCode: int := 2
  const YyInitialStackSize: int := 16
  const YyPrivate: int := 57344
  const YyAct: seq<int> := [
    13, 2, 14, 25, 17, 26, 19, 9, 19, 18,
    15, 16, 20, 7, 8, 10, 5, 11, 22, 1,
    23, 6, 24, 3, 12, 21, 4, 27]
  const YyPact: seq<int> := [
    -1000, -1000, 10, 6, -1000, -5, -1000, 11, 11, -3,
    0, -1000, 2, -1000, -1000, -1000, -1000, -3, -1000, -1000,
    -1000, -6, -1000, 10, 10, -1000, -3, -1000]
  const YyPgo: seq<int> := [0, 26, 1, 0, 25, 23, 21, 15, 19]
  const YyR1: seq<int> := [0, 8, 5, 5, 6, 6, 7, 7, 2, 2, 1, 3, 3, 3, 3, 4, 4]
  const YyR2: seq<int> := [0, 2, 0, 2, 4, 4, 1, 2, 0, 2, 3, 1, 1, 1, 3, 1, 3]
  const YyChk: seq<int> := [
    -1000, -8, -2, -5, -1, 6, -6, 7, 8, 12,
    -7, 6, -7, -3, 5, 13, 14, 7, 9, 6,
    10, -4, -3, -2, -2, 9, 11, -3]
  const YyDef: seq<int> := [
    8, -2, 2, 1, 9, 0, 3, 0, 0, 0,
    0, 6, 0, 10, 11, 12, 13, 0, 8, 7,
    8, 0, 15, 4, 5, 14, 0, 16]
  const YyTok1: seq<int> := [1]
  const YyTok2: seq<int> := [2, 3, 4, 5, 6, 7, 8, 9, 10, 11, 12, 13, 14]

  /** Every action in the table is a state other than the initial one. */
  lemma ActsAreStates(n: int)
    requires 0 <= n < YyLast
    ensures 1 <= YyAct[n] < 28
  {
  }

  /** The tables have no transition on the error token, so error recovery never finds one. */
  lemma NoErrorTransitions(s: int)
    requires 0 <= s < 28
    ensures YyChk[s] != YyErrCode
  {
  }

  /** The production tables say what the grammar says. */
  lemma ProductionTables(p: int)
    requires 1 <= p <= 16
    ensures YyR2[p] == |Rhs(p)| && -YyR1[p] == Lhs(p)
  {
  }
}

/** The LR automaton: the moves the tables encode, and the moves the grammar calls for. */
module TomlAutomaton {
  import opened LRTheory
  import opened TomlGrammar

  /** Whether the state looks at the next token in the action table. */
  predicate Simple(s: int)
    requires 0 <= s < 28
  {
    YyPact[s] <= YyFlag
  }

  /** The state that shifting a token leads to by the tables, or -1. */
  function ShiftOn(s: int, tok: int): int
    requires 0 <= s < 28
  {
    if Simple(s) then -1
    else
      var n := YyPact[s] + tok;
      if n < 0 || n >= YyLast then -1
      else
        ActsAreStates(n);
        if YyChk[YyAct[n]] == tok then YyAct[n] else -1
  }

  /** The state that reducing to a production's left side leads to by the tables. */
  function GotoOn(p: int, s: int): int
    requires 1 <= p <= 16 && 0 <= s < 28
  {
    ProductionTables(p);
    var g := YyPgo[YyR1[p]];
    GotoIndex(p);
    var j := g + s + 1;
    if j >= YyLast then YyAct[g]
    else
      ActsAreStates(j);
      if YyChk[YyAct[j]] != -YyR1[p] then YyAct[g] else YyAct[j]
  }

  lemma GotoIndex(p: int)
    requires 1 <= p <= 16
    ensures 0 <= YyR1[p] < 9 && 0 <= YyPgo[YyR1[p]] < YyLast
  {
  }

  /** The transitions of the automaton for the grammar, or -1. */
  function Next(s: int, sym: int): int {
    if s == 0 then (if sym == TopSym then 1 else if sym == EntriesSym then 2 else -1)
    else if s == 2 then (if sym == TablesSym then 3 else if sym == EntrySym then 4 else if sym == KeyKind then 5
        else -1)
    else if s == 3 then (if sym == TableSym then 6 else if sym == LeftKind then 7 else if sym == LeftDoubleKind then 8
        else -1)
    else if s == 5 then (if sym == EqualKind then 9 else -1)
    else if s == 7 then (if sym == KeysSym then 10 else if sym == KeyKind then 11 else -1)
    else if s == 8 then (if sym == KeysSym then 12 else if sym == KeyKind then 11 else -1)
    else if s == 9 then (if sym == ValueSym then 13 else OnValue(sym))
    else if s == 10 then (if sym == RightKind then 18 else if sym == KeyKind then 19 else -1)
    else if s == 12 then (if sym == RightDoubleKind then 20 else if sym == KeyKind then 19 else -1)
    else if s == 17 then (if sym == ValuesSym then 21 else if sym == ValueSym then 22 else OnValue(sym))
    else if s == 18 then (if sym == EntriesSym then 23 else -1)
    else if s == 20 then (if sym == EntriesSym then 24 else -1)
    else if s == 21 then (if sym == RightKind then 25 else if sym == CommaKind then 26 else -1)
    else if s == 23 || s == 24 then (if sym == EntrySym then 4 else if sym == KeyKind then 5 else -1)
    else if s == 26 then (if sym == ValueSym then 27 else OnValue(sym))
    else -1
  }

  function OnValue(sym: int): int {
    if sym == BoolKind then 14 else if sym == NumberKind then 15
    else if sym == StringKind then 16 else if sym == LeftKind then 17 else -1
  }

  /** The action table shifts exactly along the automaton's transitions. */
  lemma ShiftTable(s: int, tok: int)
    requires 0 <= s < 28 && 1 <= tok <= 14
    ensures ShiftOn(s, tok) == Next(s, tok)
  {
    if Simple(s) {
      SimpleStates(s);
    } else if s < 7 { ShiftRowA(s, tok); }
    else if s < 10 { ShiftRowB(s, tok); }
    else if s < 20 { ShiftRowC(s, tok); }
    else { ShiftRowD(s, tok); }
  }

  lemma SimpleStates(s: int)
    requires 0 <= s < 28
    ensures Simple(s) <==> s in [0, 1, 4, 6, 11, 13, 14, 15, 16, 18, 19, 20, 22, 25, 27]
  {
  }

  lemma ShiftRowA(s: int, tok: int)
    requires s in [2, 3, 5] && 1 <= tok <= 14
    ensures ShiftOn(s, tok) == Next(s, tok)
  {
  }

  lemma ShiftRowB(s: int, tok: int)
    requires s in [7, 8, 9] && 1 <= tok <= 14
    ensures ShiftOn(s, tok) == Next(s, tok)
  {
  }

  lemma ShiftRowC(s: int, tok: int)
    requires s in [10, 12, 17] && 1 <= tok <= 14
    ensures ShiftOn(s, tok) == Next(s, tok)
  {
  }

  lemma ShiftRowD(s: int, tok: int)
    requires s in [21, 23, 24, 26] && 1 <= tok <= 14
    ensures ShiftOn(s, tok) == Next(s, tok)
  {
  }

  /** The goto table follows the automaton wherever it has a transition. */
  lemma GotoTable(p: int, s: int)
    requires 1 <= p <= 16 && 0 <= s < 28 && Next(s, Lhs(p)) != -1
    ensures GotoOn(p, s) == Next(s, Lhs(p))
  {
    ProductionTables(p);
    GotoIndex(p);
    GotoByNumber(YyR1[p], s);
  }

  lemma GotoByNumber(n: int, s: int)
    requires 1 <= n <= 8 && 0 <= s < 28 && Next(s, -n) != -1
    ensures var g := YyPgo[n];
      0 <= g < YyLast && Next(s, -n) == if g + s + 1 >= YyLast || YyChk[YyAct[g + s + 1]] != -n then YyAct[g]
          else YyAct[g + s + 1]
  {
  }

  /** What the tables say to do in state s before token tok. */
  function MoveOn(s: int, tok: int): Move {
    if !(0 <= s < 28) then Fail
    else
      var to := ShiftOn(s, tok);
      if to != -1 then Shift(to)
      else if YyDef[s] == -2 then (if tok == EndKind then Accept else Fail)
      else if YyDef[s] == 0 then Fail
      else Reduce(YyDef[s])
  }

  function GotoState(p: int, s: int): int {
    if 1 <= p <= 16 && 0 <= s < 28 then GotoOn(p, s) else -1
  }

  predicate Terminal(k: int) {
    BoolKind <= k <= StringKind
  }

  /** The kinds the lexer interface can deliver. */
  predicate Legal(k: int) {
    k == UnknownKind || Terminal(k)
  }

  /** The items of each state: the productions it may be reading, and how far it has come. */
  predicate HasItem(s: int, p: int, dot: int) {
    match s
    case 0 => dot == 0 && p in [1, 8, 9]
    case 2 => (dot == 0 && p in [2, 3, 10]) || (dot == 1 && p in [1, 9])
    case 3 => (dot == 0 && p in [4, 5]) || (dot == 1 && p == 3) || (dot == 2 && p == 1)
    case 4 => dot == 2 && p == 9
    case 5 => dot == 1 && p == 10
    case 6 => dot == 2 && p == 3
    case 7 => (dot == 0 && p in [6, 7]) || (dot == 1 && p == 4)
    case 8 => (dot == 0 && p in [6, 7]) || (dot == 1 && p == 5)
    case 9 => (dot == 0 && 11 <= p <= 14) || (dot == 2 && p == 10)
    case 10 => (dot == 1 && p == 7) || (dot == 2 && p == 4)
    case 11 => dot == 1 && p == 6
    case 12 => (dot == 1 && p == 7) || (dot == 2 && p == 5)
    case 13 => dot == 3 && p == 10
    case 14 => dot == 1 && p == 11
    case 15 => dot == 1 && p == 12
    case 16 => dot == 1 && p == 13
    case 17 => (dot == 0 && 11 <= p <= 16) || (dot == 1 && p == 14)
    case 18 => (dot == 0 && p in [8, 9]) || (dot == 3 && p == 4)
    case 19 => dot == 2 && p == 7
    case 20 => (dot == 0 && p in [8, 9]) || (dot == 3 && p == 5)
    case 21 => (dot == 1 && p == 16) || (dot == 2 && p == 14)
    case 22 => dot == 1 && p == 15
    case 23 => (dot == 0 && p == 10) || (dot == 1 && p == 9) || (dot == 4 && p == 4)
    case 24 => (dot == 0 && p == 10) || (dot == 1 && p == 9) || (dot == 4 && p == 5)
    case 25 => dot == 3 && p == 14
    case 26 => (dot == 0 && 11 <= p <= 14) || (dot == 2 && p == 16)
    case 27 => dot == 3 && p == 16
    case _ => false
  }

  /** Weights that make every reduction lower the weight of the top plus the depth. */
  function Rank(s: int): nat {
    if s == 0 then 4
    else if s in [2, 4, 14, 15, 16, 18, 20] then 2
    else if s in [11, 13, 22] then 1
    else 0
  }

  /** After a table a key would be taken as one more of its entries, so none may follow. */
  predicate MayFollow(sym: int, tok: int) {
    && (sym == TableSym || sym == TablesSym ==> tok != KeyKind)
    && (sym == TopSym ==> tok == EndKind)
  }

  const Toml: Parser := Parser(28, 16, TopSym, Rhs, Lhs, Terminal, Legal, Next, HasItem, MoveOn, GotoState, Rank,
      MayFollow)

  lemma ItemRange(s: int, p: int, d: int)
    requires HasItem(s, p, d)
    ensures 0 <= s < 28 && 1 <= p <= 16 && 0 <= d <= |Rhs(p)| && (s == 0 ==> d == 0)
  {
  }

  lemma NextRange(s: int, x: int)
    ensures Next(s, x) == -1 || 1 <= Next(s, x) < 28
    ensures Next(s, x) == 1 ==> s == 0 && x == TopSym
  {
  }

  lemma FreshItems(s: int, p: int)
    requires 0 <= s < 28 && 1 <= p <= 16
    ensures HasItem(s, p, 0) <==> Next(s, Lhs(p)) != -1
  {
  }

  lemma ItemForward(s: int, p: int, d: int)
    requires HasItem(s, p, d) && 0 <= d < |Rhs(p)|
    ensures Next(s, Rhs(p)[d]) != -1 && HasItem(Next(s, Rhs(p)[d]), p, d + 1)
  {
  }

  lemma ItemBack(s: int, x: int, p: int, d: int)
    requires Next(s, x) != -1 && HasItem(Next(s, x), p, d) && 0 < d <= |Rhs(p)|
    ensures x == Rhs(p)[d - 1] && HasItem(s, p, d - 1)
  {
  }

  lemma CompleteItems(s: int, p: int)
    requires 0 <= s < 28 && 1 <= p <= 16
    ensures HasItem(s, p, |Rhs(p)|) <==> YyDef[s] == p
  {
  }

  lemma DefaultRange(s: int)
    requires 0 <= s < 28
    ensures (YyDef[s] == -2 <==> s == 1) && (s != 1 ==> 0 <= YyDef[s] <= 16)
  {
  }

  /** Which states reduce by which production. */
  lemma ProductionStates(s: int, p: int)
    requires 0 <= s < 28 && p == YyDef[s] && 1 <= p <= 16
    ensures match p
      case 1 => s == 3 case 2 => s == 2 case 3 => s == 6 case 4 => s == 23 case 5 => s == 24
      case 6 => s == 11 case 7 => s == 19 case 8 => s in [0, 18, 20] case 9 => s == 4
      case 10 => s == 13 case 11 => s == 14 case 12 => s == 15 case 13 => s == 16
      case 14 => s == 25 case 15 => s == 22 case _ => s == 27
  {
  }

  lemma RankDrops(s: int, p: int, b: int)
    requires 0 <= s < 28 && p == YyDef[s] && 1 <= p <= 16 && Next(b, Lhs(p)) != -1 && (|Rhs(p)| == 0 ==> b == s)
    ensures 1 + Rank(Next(b, Lhs(p))) < |Rhs(p)| + Rank(s)
  {
    ProductionStates(s, p);
    Targets(b, Lhs(p));
  }

  /** Where the transitions on a nonterminal lead. */
  lemma Targets(b: int, sym: int)
    requires sym < 0 && Next(b, sym) != -1
    ensures match -sym
      case 1 => Next(b, sym) == 4 case 2 => Next(b, sym) in [2, 23, 24] && Rank(Next(b, sym)) <= 2 &&
          (b != 0 ==> Rank(Next(b, sym)) == 0)
      case 3 => Next(b, sym) in [13, 22, 27] case 4 => Next(b, sym) == 21 case 5 => Next(b, sym) == 3
      case 6 => Next(b, sym) == 6 case 7 => Next(b, sym) in [10, 12] case _ => Next(b, sym) == 1
  {
  }

  lemma ReducesBefore(s: int, p: int, k: int)
    requires 0 <= s < 28 && p == YyDef[s] && 1 <= p <= 16 && (Legal(k) || k == EndKind) && MayFollow(Lhs(p), k)
    ensures MoveOn(s, k) == Reduce(p)
  {
    ProductionStates(s, p);
    ShiftTable(s, k);
  }

  lemma ShiftedKinds(s: int, k: int)
    requires Next(s, k) != -1 && (Legal(k) || k == EndKind)
    ensures Terminal(k)
  {
  }

  /** The generated tables are coherent with the grammar's automaton. */
  lemma ItemsAreCoherent()
    ensures Toml.ItemsCoherent()
  {
    forall s, x ensures Next(s, x) == -1 || 1 <= Next(s, x) < 28 ensures Next(s, x) == 1 ==> s == 0 && x == TopSym {
      NextRange(s, x);
    }
    forall s, p, d | Toml.item(s, p, d)
      ensures Toml.IsState(s) && Toml.IsProd(p) && 0 <= d <= |Rhs(p)| && (s == 0 ==> d == 0)
    {
      ItemRange(s, p, d);
    }
    forall s, p | Toml.IsState(s) && Toml.IsProd(p) ensures Toml.item(s, p, 0) <==> Toml.next(s, Lhs(p)) != -1 {
      FreshItems(s, p);
    }
    forall s, p, d | Toml.item(s, p, d) && d < |Rhs(p)|
      ensures Toml.next(s, Rhs(p)[d]) != -1 && Toml.item(Toml.next(s, Rhs(p)[d]), p, d + 1)
    {
      ItemRange(s, p, d);
      ItemForward(s, p, d);
    }
    forall s, x, p, d | Toml.next(s, x) != -1 && Toml.item(Toml.next(s, x), p, d) && d > 0
      ensures Rhs(p)[d - 1] == x && Toml.item(s, p, d - 1)
    {
      ItemRange(Next(s, x), p, d);
      ItemBack(s, x, p, d);
    }
  }

  lemma MoveJustified(s: int, k: int)
    requires 0 <= s < 28 && (Legal(k) || k == EndKind)
    ensures Toml.Justified(s, k, MoveOn(s, k))
  {
    ShiftTable(s, k);
    DefaultRange(s);
    if MoveOn(s, k).Reduce? {
      CompleteItems(s, YyDef[s]);
    }
    if Next(s, k) != -1 {
      ShiftedKinds(s, k);
    }
  }

  lemma CompleteItemReduces(s: int, p: int, k: int)
    ensures Toml.ReducesAt(s, p, k)
  {
    if HasItem(s, p, |Rhs(p)|) && (Legal(k) || k == EndKind) && MayFollow(Lhs(p), k) {
      ItemRange(s, p, |Rhs(p)|);
      CompleteItems(s, p);
      ReducesBefore(s, p, k);
    }
  }

  lemma MovesAreJustified()
    ensures Toml.MovesJustified()
  {
    forall s, k | Toml.IsState(s) && (Legal(k) || k == EndKind) ensures Toml.Justified(s, k, Toml.move(s, k)) {
      MoveJustified(s, k);
    }
  }

  lemma ShiftsAreCoherent()
    ensures Toml.ShiftsCoherent()
  {
    forall s, k | Toml.IsState(s) && Terminal(k) && Toml.next(s, k) != -1 ensures Toml.move(s, k).Shift? {
      ShiftTable(s, k);
    }
  }

  lemma GotosAreCoherent()
    ensures Toml.GotosCoherent()
  {
    forall s, p | Toml.IsState(s) && Toml.IsProd(p) && Toml.next(s, Lhs(p)) != -1
      ensures Toml.goto(p, s) == Toml.next(s, Lhs(p))
    {
      GotoTable(p, s);
    }
  }

  lemma ReducesAreCoherent()
    ensures Toml.ReducesCoherent()
  {
    forall s, p, k ensures Toml.ReducesAt(s, p, k) {
      CompleteItemReduces(s, p, k);
    }
  }

  lemma MovesAreCoherent()
    ensures Toml.MovesCoherent()
  {
    MovesAreJustified();
    ShiftsAreCoherent();
    GotosAreCoherent();
    ReducesAreCoherent();
    AcceptsAtEnd();
  }

  lemma AcceptsAtEnd()
    ensures MoveOn(1, EndKind) == Accept
  {
    ShiftTable(1, EndKind);
    DefaultRange(1);
  }

  lemma RanksAreCoherent()
    ensures Toml.RanksCoherent()
  {
    forall s, p, b | Toml.item(s, p, |Rhs(p)|) && Toml.next(b, Lhs(p)) != -1 && (|Rhs(p)| == 0 ==> b == s)
      ensures 1 + Toml.rank(Toml.next(b, Lhs(p))) < |Rhs(p)| + Toml.rank(s)
    {
      ItemRange(s, p, |Rhs(p)|);
      CompleteItems(s, p);
      RankDrops(s, p, b);
    }
  }

  /** A table begins with a bracket. */
  lemma TableStarts(t: Tree)
    requires Toml.Derives(t) && Toml.Root(t) == TableSym
    ensures Yield(t) != [] && Yield(t)[0].kind in [LeftKind, LeftDoubleKind]
  {
    var kid := t.kids[0];
    assert Toml.Root(kid) == Rhs(t.prod)[0] && Rhs(t.prod)[0] in [LeftKind, LeftDoubleKind];
    assert kid.Leaf?;
    assert YieldAll(t.kids) == Yield(kid) + YieldAll(t.kids[1..]);
  }

  lemma FollowIsCoherent()
    ensures Toml.FollowCoherent()
  {
    forall t: Tree, n: nat, rest ensures Toml.KidMayFollow(t, n, rest) {
      if Toml.Derives(t) && t.Node? && n < |t.kids| && MayFollow(Toml.Root(t), Peek(rest)) {
        KidFollows(t, n, rest);
      }
    }
  }

  /** What may follow the left side may follow its last part. */
  lemma LastFollows(p: int, tok: int)
    requires 1 <= p <= 16 && Rhs(p) != [] && MayFollow(Lhs(p), tok)
    ensures MayFollow(Rhs(p)[|Rhs(p)| - 1], tok)
  {
  }

  /** Only the tables before a table must not have a key behind them. */
  lemma InnerFollows(p: int, n: nat, tok: int)
    requires 1 <= p <= 16 && n + 1 < |Rhs(p)| && p != 3
    ensures MayFollow(Rhs(p)[n], tok)
  {
  }

  lemma TableFollows(t: Tree, rest: seq<Token>)
    requires Toml.Derives(t) && t.Node? && t.prod == 3
    ensures |t.kids| == 2 && MayFollow(TablesSym, Peek(YieldAll(t.kids[1..]) + rest))
  {
    assert Toml.Root(t.kids[1]) == TableSym;
    TableStarts(t.kids[1]);
    assert t.kids[1..][0] == t.kids[1];
  }

  lemma KidOf(t: Tree, n: nat)
    requires Toml.Derives(t) && t.Node? && n < |t.kids|
    ensures 1 <= t.prod <= 16 && |t.kids| == |Rhs(t.prod)|
    ensures Toml.Root(t) == Lhs(t.prod) && Toml.Root(t.kids[n]) == Rhs(t.prod)[n]
  {
  }

  lemma KidFollows(t: Tree, n: nat, rest: seq<Token>)
    requires Toml.Derives(t) && t.Node? && n < |t.kids| && MayFollow(Toml.Root(t), Peek(rest))
    ensures MayFollow(Toml.Root(t.kids[n]), Peek(YieldAll(t.kids[n + 1..]) + rest))
  {
    KidOf(t, n);
    if n + 1 == |t.kids| {
      assert YieldAll(t.kids[n + 1..]) + rest == rest;
      LastFollows(t.prod, Peek(rest));
    } else if t.prod == 3 {
      TableFollows(t, rest);
    } else {
      InnerFollows(t.prod, n, Peek(YieldAll(t.kids[n + 1..]) + rest));
    }
  }

  /** The generated parser is coherent, so all of LRTheory holds of it. */
  lemma TomlCoherent()
    ensures Toml.Coherent() && Toml.FollowCoherent()
  {
    ItemsAreCoherent();
    MovesAreCoherent();
    RanksAreCoherent();
    FollowIsCoherent();
  }

  /**
   * The generated parser accepts a token sequence exactly when the grammar derives it, and the grammar is
   * unambiguous.
   */
  lemma TomlParserCorrect(toks: seq<Token>)
    requires Toml.LegalTokens(toks)
    ensures Toml.Coherent()
    ensures Parses(Toml, toks).Accepts? <==> exists t :: Toml.Document(t) && Yield(t) == toks
    ensures forall t :: Toml.Document(t) && Yield(t) == toks ==> Parses(Toml, toks) == Accepts(t)
  {
    TomlCoherent();
    AcceptsExactlyDocuments(Toml, toks);
    forall t | Toml.Document(t) && Yield(t) == toks ensures Parses(Toml, toks) == Accepts(t) {
      ParserComplete(Toml, t);
    }
  }
}
