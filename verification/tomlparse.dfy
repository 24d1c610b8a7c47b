/** The goyacc driver loop over its own stack, and the values its actions build there. */
module TomlParse {
  import opened Base
  import opened LRTheory
  import opened TomlGrammar
  import opened TomlAutomaton
  import opened TomlValues
  import opened TomlItems
  import TomlLexer

  ghost predicate LexerItems(items: seq<Item>) {
    forall i :: 0 <= i < |items| ==> items[i].typ == ItemEof || ItemError <= items[i].typ <= 57356
  }

  /** The parser hears of an error item as of the end of input. */
  predicate EndsInput(item: Item) {
    item.typ == ItemEof || item.typ == ItemError
  }

  /** The tokens before the first item that ends the input. */
  function Tokens(items: seq<Item>): seq<Token> {
    if items == [] || EndsInput(items[0]) then []
    else [Token(items[0].typ - YyPrivate + 2, items[0].val)] + Tokens(items[1..])
  }

  /** The input ends at a lexical error rather than at the end of the text. */
  predicate LexFails(items: seq<Item>) {
    items != [] && (items[0].typ == ItemError || (!EndsInput(items[0]) && LexFails(items[1..])))
  }

  lemma {:induction false} TokensAt(items: seq<Item>, k: nat)
    requires LexerItems(items) && k <= |Tokens(items)|
    ensures |Tokens(items)| <= |items| && Toml.LegalTokens(Tokens(items))
    ensures k < |Tokens(items)| ==>
      !EndsInput(items[k]) && Tokens(items)[k] == Token(items[k].typ - YyPrivate + 2, items[k].val)
    ensures k == |Tokens(items)| ==>
      (k == |items| || EndsInput(items[k])) && (LexFails(items) <==> k < |items| && items[k].typ == ItemError)
  {
    if items != [] && !EndsInput(items[0]) {
      TokensAt(items[1..], if k == 0 then 0 else k - 1);
    }
  }

  /** What a parser's outcome means: the meaning of the derivation it finds, if there is one. */
  ghost function MeaningOf(lits: Literals, o: Outcome): Option<Fields> {
    match o
    case Rejects => None
    case Accepts(t) =>
      match Eval(lits, t)
      case Some(SDocument(doc)) => Some(doc)
      case _ => None
  }

  /** The union that the parser keeps on its stack: a state, and one field per type of value. */
  datatype YySym = YySym(yys: int, str: string, entries: Fields, entry: (string, Value), value: Value,
                         values: seq<Value>, section: Section, tables: Fields, keys: seq<string>)

  const ZeroSym: YySym := YySym(0, "", map[], ("", VBool(false)), VBool(false), [], Section(false, [], map[]), map[],
      [])

  /** The field for the meaning's type holds the meaning. */
  predicate Holds(y: YySym, s: Sem) {
    match s
    case SToken(text) => y.str == text
    case SEntry(k, v) => y.entry == (k, v)
    case SEntries(e) => y.entries == e
    case SValue(v) => y.value == v
    case SValues(vs) => y.values == vs
    case STables(m) => y.tables == m
    case SSection(sec) => y.section == sec
    case SKeys(ks) => y.keys == ks
    case SDocument(_) => true
  }

  /** The meanings are of the types that production p's right side has. */
  predicate ArgsFit(p: int, args: seq<Sem>) {
    match p
    case 1 => |args| == 2 && args[0].SEntries? && args[1].STables?
    case 2 => |args| == 0
    case 3 => |args| == 2 && args[0].STables? && args[1].SSection?
    case 4 => |args| == 4 && args[1].SKeys? && args[3].SEntries?
    case 5 => |args| == 4 && args[1].SKeys? && args[3].SEntries?
    case 6 => |args| == 1 && args[0].SToken?
    case 7 => |args| == 2 && args[0].SKeys? && args[1].SToken?
    case 8 => |args| == 0
    case 9 => |args| == 2 && args[0].SEntries? && args[1].SEntry?
    case 10 => |args| == 3 && args[0].SToken? && args[2].SValue?
    case 14 => |args| == 3 && args[1].SValues?
    case 15 => |args| == 1 && args[0].SValue?
    case 16 => |args| == 3 && args[0].SValues? && args[2].SValue?
    case _ => |args| == 1 && args[0].SToken?
  }

  lemma RhsFits(p: int, args: seq<Sem>)
    requires 1 <= p <= 16 && |args| == |Rhs(p)| && forall i :: 0 <= i < |args| ==> SortOf(Rhs(p)[i], args[i])
    ensures ArgsFit(p, args)
  {
  }

  /** The semantic action of production p on the values of its right side. */
  method Action(lits: Literals, p: int, dollar: seq<YySym>, yyVal: YySym, result: Fields, ghost args: seq<Sem>)
    returns (ok: bool, val: YySym, res: Fields)
    requires 1 <= p <= 16 && |dollar| == |args| + 1 && ArgsFit(p, args)
    requires forall i :: 0 <= i < |args| ==> Holds(dollar[i + 1], args[i])
    ensures ok <==> Act(lits, p, args).Some?
    ensures ok ==> Holds(val, Act(lits, p, args).value)
    ensures ok && p == 1 ==> Act(lits, p, args) == Some(SDocument(res))
    ensures p != 1 ==> res == result
  {
    ok, val, res := true, yyVal, result;
    match p
    case 1 => res := dollar[2].tables + dollar[1].entries;
    case 2 => val := val.(tables := map[]);
    case 3 =>
      var s := dollar[2].section;
      match Insert(dollar[1].tables, s.keys, s.isArray, s.entries) {
        case None => ok := false;
        case Some(m) => val := val.(tables := m);
      }
    case 4 => val := val.(section := Section(false, dollar[2].keys, dollar[4].entries));
    case 5 => val := val.(section := Section(true, dollar[2].keys, dollar[4].entries));
    case 6 => val := val.(keys := [dollar[1].str]);
    case 7 => val := val.(keys := dollar[1].keys + [dollar[2].str]);
    case 8 => val := val.(entries := map[]);
    case 9 => val := val.(entries := dollar[1].entries[dollar[2].entry.0 := dollar[2].entry.1]);
    case 10 => val := val.(entry := (dollar[1].str, dollar[3].value));
    case 11 => val := val.(value := VBool(dollar[1].str == "true"));
    case 12 =>
      match NumberValue(lits, dollar[1].str) {
        case None => ok := false;
        case Some(v) => val := val.(value := v);
      }
    case 13 =>
      match lits.unquote(dollar[1].str) {
        case None => ok := false;
        case Some(s) => val := val.(value := VString(s));
      }
    case 14 => val := val.(value := VArray(dollar[2].values));
    case 15 => val := val.(values := [dollar[1].value]);
    case _ => val := val.(values := dollar[1].values + [dollar[3].value]);
  }

  /* ---- the driver ---- */

  /** A mention of a state, token or production, at which the tables are looked up. */
  predicate At(x: int, y: int) { true }

  /** What the driver relies on: a coherent parser whose moves are read off the tables. */
  ghost predicate TablesOf(g: Parser) {
    && g.Coherent() && g.states == 28 && g.prods == 16 && g.start == TopSym
    && MovesTabled(g) && ArgsTabled(g) && SizesTabled(g) && ActsTabled(g) && SymbolsTabled(g)
  }

  ghost predicate Tabled(g: Parser) {
    forall k {:trigger Unfold(k)} :: Unfold(k) ==> TablesOf(g)
  }

  ghost predicate MovesTabled(g: Parser) {
    forall s, k {:trigger At(s, k)} :: At(s, k) ==> g.move(s, k) == MoveOn(s, k) && g.goto(s, k) == GotoState(s, k)
  }

  ghost predicate ArgsTabled(g: Parser) {
    forall p, args {:trigger ArgsFit(p, args)} :: g.IsProd(p) && Sorted(g, p, args) ==> ArgsFit(p, args)
  }

  ghost predicate SizesTabled(g: Parser) {
    forall p {:trigger YyR2[p]} :: 1 <= p <= 16 ==> YyR2[p] == |g.rhs(p)|
  }

  ghost predicate ActsTabled(g: Parser) {
    forall lits, p, args {:trigger Act(lits, p, args)} :: Act(lits, p, args).Some? ==>
        SortOf(g.lhs(p), Act(lits, p, args).value)
  }

  ghost predicate SymbolsTabled(g: Parser) {
    && (forall p :: g.IsProd(p) && g.lhs(p) == TopSym ==> p == 1)
    && (forall k :: g.terminal(k) ==> k >= 0)
    && (forall k :: g.legal(k) ==> Legal(k))
  }

  /** The meanings have the sorts of the symbols of production p's right side. */
  ghost predicate Sorted(g: Parser, p: int, args: seq<Sem>) {
    |args| == |g.rhs(p)| && forall i :: 0 <= i < |args| ==> SortOf(g.rhs(p)[i], args[i])
  }

  lemma TomlArgs()
    ensures ArgsTabled(Toml)
  {
    forall p, args | Toml.IsProd(p) && Sorted(Toml, p, args) ensures ArgsFit(p, args) {
      RhsFits(p, args);
    }
  }

  lemma TomlSizes()
    ensures SizesTabled(Toml)
  {
    forall p | 1 <= p <= 16 ensures YyR2[p] == |Toml.rhs(p)| {
      ProductionTables(p);
    }
  }

  lemma TomlActs()
    ensures ActsTabled(Toml)
  {
    forall lits, p, args | Act(lits, p, args).Some? ensures SortOf(Toml.lhs(p), Act(lits, p, args).value) {
      ActSort(lits, p, args);
    }
  }

  lemma TomlSymbols()
    ensures SymbolsTabled(Toml) && MovesTabled(Toml)
  {
  }

  lemma TomlTabled()
    ensures Tabled(Toml)
  {
    TomlCoherent();
    TomlArgs();
    TomlSizes();
    TomlActs();
    TomlSymbols();
  }

  /** The configuration is one the parser reaches, and its run has the outcome o. */
  ghost predicate RunsTo(g: Parser, c: Config, o: Outcome) {
    forall k {:trigger Unfold(k)} :: Unfold(k) ==> Inv(g, c) && Run(g, c) == o
  }

  lemma RunsToStates(g: Parser, c: Config, o: Outcome)
    requires Tabled(g) && RunsTo(g, c, o)
    ensures 0 <= Top(c.stack) < 28 && forall i :: 0 <= i < |c.stack| ==> 0 <= c.stack[i].state < 28
  {
    assert Unfold(0);
    TopInRange(g, c.stack);
    forall i | 0 <= i < |c.stack| ensures 0 <= c.stack[i].state < 28 {
      assert LinkAt(g, c.stack, i);
    }
  }

  lemma RunsToAccept(g: Parser, c: Config, o: Outcome)
    requires RunsTo(g, c, o) && g.move(Top(c.stack), Peek(c.rest)) == Accept
    ensures |c.stack| == 1 && Top(c.stack) == 1 && o == Accepts(c.stack[0].tree)
    ensures Peek(c.rest) == EndKind && !g.legal(EndKind)
  {
    assert Unfold(0);
    TopInRange(g, c.stack);
    assert g.Justified(Top(c.stack), Peek(c.rest), Accept);
    AcceptOnTop(g, c.stack);
  }

  lemma RunsToShift(g: Parser, c: Config, o: Outcome, to: int)
    requires RunsTo(g, c, o) && g.move(Top(c.stack), Peek(c.rest)) == Shift(to)
    ensures c.rest != [] && g.terminal(c.rest[0].kind) && to != 1
    ensures RunsTo(g, Config(c.stack + [Frame(to, Leaf(c.rest[0]))], c.rest[1..]), o)
  {
    assert Unfold(0);
    TopInRange(g, c.stack);
    assert g.Justified(Top(c.stack), Peek(c.rest), Shift(to));
    assert Step(g, c) == Going(Shifted(g, c, to));
  }

  lemma RunsToReduce(g: Parser, c: Config, o: Outcome, p: int)
    requires RunsTo(g, c, o) && g.move(Top(c.stack), Peek(c.rest)) == Reduce(p)
    ensures g.IsProd(p) && OnTop(g, c.stack, p) && g.IsState(StateAt(c.stack, |g.rhs(p)|))
    ensures RunsTo(g, Config(AfterReduce(g, c.stack, p), c.rest), o)
    ensures Weight(g, AfterReduce(g, c.stack, p)) < Weight(g, c.stack)
  {
    assert Unfold(0);
    RunReduces(g, c, p);
  }

  lemma RunsToFail(g: Parser, c: Config, o: Outcome)
    requires RunsTo(g, c, o) && g.move(Top(c.stack), Peek(c.rest)) == Fail
    ensures o == Rejects
  {
    assert Unfold(0);
  }

  lemma RunsToMeaningless(g: Parser, lits: Literals, c: Config, o: Outcome, i: nat)
    requires RunsTo(g, c, o) && i < |c.stack| && Eval(lits, c.stack[i].tree) == None
    ensures MeaningOf(lits, o) == None
  {
    assert Unfold(0);
    if o.Accepts? {
      MeaninglessStays(g, lits, c, i);
    }
  }

  /** In the accepting state there is nothing on the stack but a document, made by the only production for one. */
  lemma RunsToDocument(g: Parser, stack: seq<Frame>, rest: seq<Token>, o: Outcome)
    requires Tabled(g) && RunsTo(g, Config(stack, rest), o) && Top(stack) == 1
    ensures |stack| == 1 && (stack[0].tree.Node? ==> stack[0].tree.prod == 1)
  {
    assert Unfold(0);
    AcceptOnTop(g, stack);
  }

  lemma TerminalKind(g: Parser, k: int)
    requires Tabled(g) && g.terminal(k)
    ensures k >= 0
  {
    assert Unfold(0);
  }

  lemma MeaninglessKid(lits: Literals, p: int, kids: seq<Tree>, k: nat)
    requires k < |kids| && Eval(lits, kids[k]) == None
    ensures Eval(lits, Node(p, kids)) == None
  {
    EvalAllAt(lits, kids);
  }

  lemma MeaninglessReduced(g: Parser, lits: Literals, c: Config, p: int, i: nat) returns (j: nat)
    requires Inv(g, c) && i < |c.stack| && Eval(lits, c.stack[i].tree) == None && g.item(Top(c.stack), p, |g.rhs(p)|)
    ensures j < |Reduced(g, c, p).stack| && Eval(lits, Reduced(g, c, p).stack[j].tree) == None
  {
    HandleOnTop(g, c.stack, p);
    var base := |c.stack| - |g.rhs(p)|;
    j := if i >= base then base else i;
    if i >= base {
      MeaninglessKid(lits, p, Trees(c.stack)[base..], i - base);
    }
  }

  /** A tree without meaning on the stack leaves the whole document without one. */
  lemma {:induction false} MeaninglessStays(g: Parser, lits: Literals, c: Config, i: nat)
    requires Inv(g, c) && i < |c.stack| && Eval(lits, c.stack[i].tree) == None && Run(g, c).Accepts?
    ensures Eval(lits, Run(g, c).tree) == None
    decreases |c.rest|, Weight(g, c.stack)
  {
    TopInRange(g, c.stack);
    match g.move(Top(c.stack), Peek(c.rest))
    case Shift(to) => MeaninglessStays(g, lits, Shifted(g, c, to), i);
    case Reduce(p) =>
      var j := MeaninglessReduced(g, lits, c, p, i);
      MeaninglessStays(g, lits, Reduced(g, c, p), j);
    case Accept => AcceptOnTop(g, c.stack);
    case Fail =>
  }

  /** The parser's view of the lexer: the items it emits one by one, and the error it recorded. */
  class TokenSource {
    const items: seq<Item>
    var pos: nat
    var failed: bool

    constructor (items: seq<Item>)
      ensures this.items == items && pos == 0 && !failed
    {
      this.items, pos, failed := items, 0, false;
    }

    /** The next item; past the end the closed channel keeps giving the end of input. */
    method Lex() returns (kind: int, str: string)
      modifies this
      ensures pos == old(pos) + 1
      ensures old(pos) < |items| && !EndsInput(items[old(pos)]) ==>
        kind == items[old(pos)].typ && str == items[old(pos)].val
      ensures !(old(pos) < |items| && !EndsInput(items[old(pos)])) ==> kind == 0
      ensures failed == (old(failed) || (old(pos) < |items| && items[old(pos)].typ == ItemError))
    {
      var i := if pos < |items| then items[pos] else Item(ItemEof, "");
      pos := pos + 1;
      if i.typ == ItemError {
        failed := true;
        return 0, "";
      }
      return i.typ, i.val;
    }

    method Error()
      modifies this`failed
      ensures failed
    {
      failed := true;
    }
  }

  /** Translates a token constant into the tables' numbering. */
  method YyLex1(kind: int) returns (token: int)
    requires kind == 0 || ItemError <= kind <= 57356
    ensures token == if kind == 0 then EndKind else kind - YyPrivate + 2
  {
    if kind <= 0 {
      token := YyTok1[0];
    } else {
      token := YyTok2[kind - YyPrivate];
    }
  }

  /** The parser's stack holds the states of a stack of trees, and the trees' meanings. */
  ghost predicate ValuesOn(g: Parser, lits: Literals, yyS: seq<YySym>, stack: seq<Frame>) {
    && |yyS| > |stack| && yyS[0].yys == 0
    && forall i :: 0 <= i < |stack| ==> ValueAt(g, lits, yyS, stack, i)
  }

  ghost predicate ValueAt(g: Parser, lits: Literals, yyS: seq<YySym>, stack: seq<Frame>, i: nat)
    requires i < |stack| < |yyS|
  {
    var y, f := yyS[i + 1], stack[i];
    && y.yys == f.state
    && Eval(lits, f.tree).Some? && Holds(y, Eval(lits, f.tree).value)
    && SortOf(g.Root(f.tree), Eval(lits, f.tree).value)
  }

  /** The meanings of the right side that is about to be reduced. */
  lemma HandleValues(g: Parser, lits: Literals, yyS: seq<YySym>, stack: seq<Frame>, p: int) returns (args: seq<Sem>)
    requires ValuesOn(g, lits, yyS, stack) && OnTop(g, stack, p)
    ensures |args| == |g.rhs(p)| && EvalAll(lits, Trees(stack)[|stack| - |g.rhs(p)|..]) == Some(args)
    ensures forall i :: 0 <= i < |args| ==> Holds(yyS[|stack| - |g.rhs(p)| + i + 1], args[i])
    ensures Sorted(g, p, args)
  {
    var base := |stack| - |g.rhs(p)|;
    var kids := Trees(stack)[base..];
    EvalAllAt(lits, kids);
    forall i | 0 <= i < |kids| ensures Eval(lits, kids[i]).Some? {
      assert ValueAt(g, lits, yyS, stack, base + i);
    }
    args := EvalAll(lits, kids).value;
    forall i | 0 <= i < |kids| ensures Holds(yyS[base + i + 1], args[i]) && SortOf(g.rhs(p)[i], args[i]) {
      assert ValueAt(g, lits, yyS, stack, base + i);
      assert kids[i] == stack[base + i].tree && g.Root(stack[base + i].tree) == g.rhs(p)[i];
    }
  }

  /** Pushing a state with its value, growing the stack when it is full. */
  method Push(yyS: seq<YySym>, yyp: int, val: YySym, state: int) returns (s: seq<YySym>, top: int)
    requires -1 <= yyp < |yyS| && |yyS| > 0
    ensures top == yyp + 1 < |s| && s[top] == val.(yys := state)
    ensures forall i :: 0 <= i <= yyp ==> s[i] == yyS[i]
  {
    s, top := yyS, yyp + 1;
    if top >= |s| {
      s := s + seq(|s|, _ => ZeroSym);
      assert |s| == 2 * |yyS|;
    }
    s := s[top := val.(yys := state)];
  }

  /** Error recovery: looks down the stack for a state that shifts the error token, and finds none. */
  method Recover(yyS: seq<YySym>, yyp: int) returns (state: Option<int>)
    requires -1 <= yyp < |yyS| && forall i :: 0 <= i <= yyp ==> 0 <= yyS[i].yys < 28
    ensures state == None
  {
    var p := yyp;
    state := None;
    while p >= 0 && state == None
      invariant -1 <= p <= yyp && state == None
    {
      var yyn := YyPact[yyS[p].yys] + YyErrCode;
      if 0 <= yyn < YyLast {
        ActsAreStates(yyn);
        var yystate := YyAct[yyn];
        NoErrorTransitions(yystate);
        state := if YyChk[yystate] == YyErrCode then Some(yystate) else None;
      }
      p := p - 1;
    }
  }

  /** Where the driver stands: it has shifted the first p tokens, and may hold the next one as lookahead. */
  ghost predicate Standing(lx: TokenSource, p: nat, kind: int, token: int, str: string)
    reads lx
    requires LexerItems(lx.items)
  {
    var toks := Tokens(lx.items);
    && p <= |toks|
    && lx.pos == p + (if kind >= 0 then 1 else 0)
    && (kind >= 0 ==> token == Peek(toks[p..]) && (p < |toks| ==> str == toks[p].text))
    && lx.failed == (kind >= 0 && p == |toks| && LexFails(lx.items))
  }

  /** Makes sure there is a lookahead token. */
  method LookAhead(lx: TokenSource, kind: int, token: int, str: string, ghost p: nat)
    returns (c: int, t: int, s: string)
    requires LexerItems(lx.items) && Standing(lx, p, kind, token, str)
    modifies lx
    ensures c >= 0 && Standing(lx, p, c, t, s)
    ensures t == Peek(Tokens(lx.items)[p..])
  {
    c, t, s := kind, token, str;
    if kind < 0 {
      TokensAt(lx.items, p);
      c, s := lx.Lex();
      t := YyLex1(c);
    }
  }

  /** The exception table: state 1 accepts at the end of input and fails otherwise. */
  method Exception(state: int, token: int) returns (yyn: int)
    requires state == 1
    ensures yyn == if token == EndKind then -1 else 0
  {
    // the table starts with the pair of the only state that has exceptions
    assert YyExca[0] == -1 && YyExca[1] == state;
    var xi := 2;
    while YyExca[xi] >= 0 && YyExca[xi] != token
      invariant xi == 2 || (xi == 4 && token != EndKind)
      decreases 6 - xi
    {
      xi := xi + 2;
    }
    yyn := YyExca[xi + 1];
  }

  ghost predicate Reducible(g: Parser, lits: Literals, stack: seq<Frame>, p: int, args: seq<Sem>) {
    && g.IsProd(p) && |args| == |g.rhs(p)| <= |stack|
    && EvalAll(lits, Trees(stack)[|stack| - |g.rhs(p)|..]) == Some(args)
  }

  lemma ActedTree(g: Parser, lits: Literals, stack: seq<Frame>, p: int, args: seq<Sem>)
    requires Reducible(g, lits, stack, p, args)
    ensures Eval(lits, Node(p, Trees(stack)[|stack| - |g.rhs(p)|..])) == Act(lits, p, args)
  {
  }

  /** When an action fails, no document that the parser goes on to find has a meaning. */
  lemma ActionFails(g: Parser, lits: Literals, stack: seq<Frame>, rest: seq<Token>, o: Outcome, p: int, args: seq<Sem>)
    requires Reducible(g, lits, stack, p, args) && Act(lits, p, args) == None
    requires RunsTo(g, Config(AfterReduce(g, stack, p), rest), o)
    ensures MeaningOf(lits, o) == None
  {
    ActedTree(g, lits, stack, p, args);
    RunsToMeaningless(g, lits, Config(AfterReduce(g, stack, p), rest), o, |stack| - |g.rhs(p)|);
  }

  /** The values after a reduction whose action succeeded. */
  lemma ReducedValues(g: Parser, lits: Literals, yyS: seq<YySym>, stack: seq<Frame>, p: int, args: seq<Sem>,
                      s: seq<YySym>, val: YySym)
    requires Reducible(g, lits, stack, p, args) && ValuesOn(g, lits, yyS, stack)
    requires Act(lits, p, args).Some? && Holds(val, Act(lits, p, args).value)
    requires SortOf(g.lhs(p), Act(lits, p, args).value)
    requires |s| > |stack| - |g.rhs(p)| + 1
    requires s[|stack| - |g.rhs(p)| + 1] == val.(yys := g.goto(p, StateAt(stack, |g.rhs(p)|)))
    requires forall i :: 0 <= i <= |stack| - |g.rhs(p)| ==> s[i] == yyS[i]
    ensures ValuesOn(g, lits, s, AfterReduce(g, stack, p))
  {
    ActedTree(g, lits, stack, p, args);
    var base := |stack| - |g.rhs(p)|;
    var next := AfterReduce(g, stack, p);
    forall i | 0 <= i < |next| ensures ValueAt(g, lits, s, next, i) {
      if i < base {
        assert next[i] == stack[i] && ValueAt(g, lits, yyS, stack, i);
      }
    }
  }

  /** Everything the driver maintains about its stack between moves. */
  ghost predicate Driving(g: Parser, o: Outcome, lits: Literals, toks: seq<Token>, stack: seq<Frame>, p: nat,
                          yyS: seq<YySym>, yyp: int, yystate: int, result: Fields)
  {
    && Tabled(g) && g.LegalTokens(toks) && p <= |toks|
    && ValuesOn(g, lits, yyS, stack) && yyp == |stack| && yystate == Top(stack)
    && RunsTo(g, Config(stack, toks[p..]), o)
    && (yystate == 1 ==> |stack| == 1 && Eval(lits, stack[0].tree) == Some(SDocument(result)))
  }

  /** Only the start production leads to the accepting state, and it leaves the whole document there. */
  lemma AcceptingState(g: Parser, lits: Literals, stack: seq<Frame>, rest: seq<Token>, o: Outcome, p: int,
                       args: seq<Sem>, result: Fields)
    requires Tabled(g) && Reducible(g, lits, stack, p, args) && RunsTo(g, Config(AfterReduce(g, stack, p), rest), o)
    requires p == 1 ==> Act(lits, p, args) == Some(SDocument(result))
    ensures var next := AfterReduce(g, stack, p);
      Top(next) == 1 ==> |next| == 1 && Eval(lits, next[0].tree) == Some(SDocument(result))
  {
    if Top(AfterReduce(g, stack, p)) == 1 {
      ActedTree(g, lits, stack, p, args);
      RunsToDocument(g, AfterReduce(g, stack, p), rest, o);
    }
  }

  lemma BaseState(g: Parser, lits: Literals, yyS: seq<YySym>, stack: seq<Frame>, k: nat)
    requires ValuesOn(g, lits, yyS, stack) && k <= |stack|
    ensures yyS[|stack| - k].yys == StateAt(stack, k)
  {
    if k < |stack| {
      assert ValueAt(g, lits, yyS, stack, |stack| - k - 1);
    }
  }

  /** What a reduction needs from the driver's stack. */
  lemma ReduceFacts(g: Parser, lits: Literals, stack: seq<Frame>, yyS: seq<YySym>, yyn: int) returns (args: seq<Sem>)
    requires ValuesOn(g, lits, yyS, stack) && g.IsProd(yyn) && OnTop(g, stack, yyn)
    ensures Reducible(g, lits, stack, yyn, args) && Sorted(g, yyn, args)
    ensures forall i :: 0 <= i < |args| ==> Holds(yyS[|stack| - |args| + i + 1], args[i])
    ensures yyS[|stack| - |args|].yys == StateAt(stack, |args|)
  {
    args := HandleValues(g, lits, yyS, stack, yyn);
    BaseState(g, lits, yyS, stack, |g.rhs(yyn)|);
  }

  /** Runs a production's action on the slice of the stack that holds its right side's values. */
  method RunAction(lits: Literals, yyn: int, yyS: seq<YySym>, yyp: int, result: Fields, ghost args: seq<Sem>)
    returns (ok: bool, val: YySym, res: Fields)
    requires 1 <= yyn <= 16 && YyR2[yyn] == |args| <= yyp < |yyS| && ArgsFit(yyn, args)
    requires HoldAbove(yyS, yyp - |args|, args)
    ensures ok <==> Act(lits, yyn, args).Some?
    ensures ok ==> Holds(val, Act(lits, yyn, args).value)
    ensures ok && yyn == 1 ==> Act(lits, yyn, args) == Some(SDocument(res))
    ensures yyn != 1 ==> res == result
  {
    var top := yyp - YyR2[yyn];
    var yyVal := if top + 1 < |yyS| then yyS[top + 1] else ZeroSym;
    var dollar := yyS[top..yyp + 1];
    forall i | 0 <= i < |args| ensures Holds(dollar[i + 1], args[i]) {
      assert dollar[i + 1] == yyS[top + i + 1];
    }
    ok, val, res := Action(lits, yyn, dollar, yyVal, result, args);
  }

  /** A reduction: pops the right side, runs the production's action and pushes the left side's state and value. */
  method ReduceBy(ghost g: Parser, lits: Literals, yyn: int, yyS: seq<YySym>, yyp: int, result: Fields,
                  ghost stack: seq<Frame>, ghost args: seq<Sem>)
    returns (ok: bool, s: seq<YySym>, top: int, yystate: int, res: Fields)
    requires ValuesOn(g, lits, yyS, stack) && yyp == |stack|
    requires Reducible(g, lits, stack, yyn, args) && ReadyFor(g, lits, stack, yyS, yyn, args)
    ensures ok <==> Act(lits, yyn, args).Some?
    ensures ok ==> ValuesOn(g, lits, s, AfterReduce(g, stack, yyn)) && top == |stack| - |args| + 1
    ensures ok ==> yystate == g.goto(yyn, StateAt(stack, |args|))
    ensures ok && yyn == 1 ==> Act(lits, yyn, args) == Some(SDocument(res))
    ensures yyn != 1 ==> res == result
  {
    top := yyp - YyR2[yyn];
    yystate := GotoOn(yyn, yyS[top].yys);
    var yyVal;
    ok, yyVal, res := RunAction(lits, yyn, yyS, yyp, result, args);
    s := yyS;
    if ok {
      s, top := Push(yyS, top, yyVal, yystate);
      ReducedValues(g, lits, yyS, stack, yyn, args, s, yyVal);
    }
  }

  lemma ShiftedValues(g: Parser, lits: Literals, yyS: seq<YySym>, stack: seq<Frame>, s: seq<YySym>, to: int, tok: Token)
    requires ValuesOn(g, lits, yyS, stack) && |s| > |stack| + 1 && tok.kind >= 0
    requires s[|stack| + 1] == ZeroSym.(str := tok.text).(yys := to)
    requires forall i :: 0 <= i <= |stack| ==> s[i] == yyS[i]
    ensures ValuesOn(g, lits, s, stack + [Frame(to, Leaf(tok))])
  {
    var next := stack + [Frame(to, Leaf(tok))];
    forall i | 0 <= i < |next| ensures ValueAt(g, lits, s, next, i) {
      if i < |stack| {
        assert next[i] == stack[i] && ValueAt(g, lits, yyS, stack, i);
      }
    }
  }

  lemma ShiftIsMove(g: Parser, s: int, k: int, to: int)
    requires Tabled(g) && 0 <= s < 28 && ShiftOn(s, k) == to != -1
    ensures g.move(s, k) == Shift(to)
  {
    assert Unfold(0);
    assert At(s, k);
  }

  lemma DefaultIsMove(g: Parser, s: int, k: int)
    requires Tabled(g) && 0 <= s < 28 && ShiftOn(s, k) == -1
    ensures YyDef[s] == -2 <==> s == 1
    ensures YyDef[s] == -2 ==> g.move(s, k) == if k == EndKind then Accept else Fail
    ensures YyDef[s] == 0 ==> g.move(s, k) == Fail
    ensures YyDef[s] != -2 && YyDef[s] != 0 ==> g.move(s, k) == Reduce(YyDef[s])
  {
    assert Unfold(0);
    assert At(s, k);
    DefaultRange(s);
  }

  /** The tables agree with the grammar about a production that is being reduced. */
  lemma ProductionFacts(g: Parser, lits: Literals, p: int, state: int, args: seq<Sem>)
    requires Tabled(g) && g.IsProd(p) && Sorted(g, p, args) && 0 <= state < 28
    ensures 1 <= p <= 16 && YyR2[p] == |args| && ArgsFit(p, args) && g.goto(p, state) == GotoOn(p, state)
    ensures Act(lits, p, args).Some? ==> SortOf(g.lhs(p), Act(lits, p, args).value)
  {
    assert Unfold(0);
    assert At(p, state);
  }

  lemma DriveShift(g: Parser, o: Outcome, lits: Literals, toks: seq<Token>, stack: seq<Frame>, p: nat,
                   yyS: seq<YySym>, result: Fields,
                   to: int, s: seq<YySym>, lval: string)
    requires Driving(g, o, lits, toks, stack, p, yyS, |stack|, Top(stack), result)
    requires g.move(Top(stack), Peek(toks[p..])) == Shift(to)
    requires |s| > |stack| + 1 && s[|stack| + 1] == ZeroSym.(str := lval).(yys := to)
    requires forall i :: 0 <= i <= |stack| ==> s[i] == yyS[i]
    requires p < |toks| ==> lval == toks[p].text
    ensures p < |toks|
    ensures Driving(g, o, lits, toks, stack + [Frame(to, Leaf(toks[p]))], p + 1, s, |stack| + 1, to, result)
  {
    RunsToShift(g, Config(stack, toks[p..]), o, to);
    assert toks[p..][1..] == toks[p + 1..];
    TerminalKind(g, toks[p].kind);
    ShiftedValues(g, lits, yyS, stack, s, to, toks[p]);
  }

  lemma DriveReduce(g: Parser, o: Outcome, lits: Literals, toks: seq<Token>, stack: seq<Frame>, p: nat,
                    yyS: seq<YySym>, result: Fields,
                    yyn: int, args: seq<Sem>, s: seq<YySym>, res: Fields)
    requires Driving(g, o, lits, toks, stack, p, yyS, |stack|, Top(stack), result)
    requires g.move(Top(stack), Peek(toks[p..])) == Reduce(yyn)
    requires Reducible(g, lits, stack, yyn, args) && ValuesOn(g, lits, s, AfterReduce(g, stack, yyn))
    requires yyn == 1 ==> Act(lits, yyn, args) == Some(SDocument(res))
    ensures var next := AfterReduce(g, stack, yyn);
      && Driving(g, o, lits, toks, next, p, s, |next|, Top(next), res)
      && Weight(g, next) < Weight(g, stack)
  {
    RunsToReduce(g, Config(stack, toks[p..]), o, yyn);
    AcceptingState(g, lits, stack, toks[p..], o, yyn, args, res);
  }

  /** What a move to reduce says about the driver's stack. */
  lemma DriveHandle(g: Parser, o: Outcome, lits: Literals, toks: seq<Token>, stack: seq<Frame>, p: nat,
                    yyS: seq<YySym>, result: Fields, yyn: int)
    requires Driving(g, o, lits, toks, stack, p, yyS, |stack|, Top(stack), result)
    requires g.move(Top(stack), Peek(toks[p..])) == Reduce(yyn)
    ensures Tabled(g) && ValuesOn(g, lits, yyS, stack)
    ensures g.IsProd(yyn) && OnTop(g, stack, yyn) && 0 <= StateAt(stack, |g.rhs(yyn)|) < 28
  {
    RunsToReduce(g, Config(stack, toks[p..]), o, yyn);
    TabledStates(g);
  }

  lemma TabledStates(g: Parser)
    requires Tabled(g)
    ensures g.states == 28
  {
    assert Unfold(0);
  }

  lemma HandleArgs(g: Parser, lits: Literals, stack: seq<Frame>, yyS: seq<YySym>, yyn: int) returns (args: seq<Sem>)
    requires Tabled(g) && ValuesOn(g, lits, yyS, stack)
    requires g.IsProd(yyn) && OnTop(g, stack, yyn) && 0 <= StateAt(stack, |g.rhs(yyn)|) < 28
    ensures Reducible(g, lits, stack, yyn, args) && ReadyFor(g, lits, stack, yyS, yyn, args)
  {
    args := ReduceFacts(g, lits, stack, yyS, yyn);
    ProductionFacts(g, lits, yyn, StateAt(stack, |args|), args);
  }

  /** The stack's values above a place hold the meanings. */
  ghost predicate HoldAbove(yyS: seq<YySym>, base: int, args: seq<Sem>)
    requires 0 <= base && base + |args| < |yyS|
  {
    forall i :: 0 <= i < |args| ==> Holds(yyS[base + i + 1], args[i])
  }

  /** The driver has what it needs to reduce by yyn. */
  ghost predicate ReadyFor(g: Parser, lits: Literals, stack: seq<Frame>, yyS: seq<YySym>, yyn: int, args: seq<Sem>) {
    && ArgsFit(yyn, args) && |args| <= |stack| < |yyS|
    && HoldAbove(yyS, |stack| - |args|, args)
    && 0 <= yyS[|stack| - |args|].yys == StateAt(stack, |args|) < 28
    && 1 <= yyn <= 16 && YyR2[yyn] == |args| &&
        (Act(lits, yyn, args).Some? ==> SortOf(g.lhs(yyn), Act(lits, yyn, args).value))
    && g.goto(yyn, StateAt(stack, |args|)) == GotoOn(yyn, StateAt(stack, |args|))
  }

  lemma DriveFails(g: Parser, o: Outcome, lits: Literals, toks: seq<Token>, stack: seq<Frame>, p: nat,
                   yyS: seq<YySym>, result: Fields,
                   yyn: int, args: seq<Sem>)
    requires Driving(g, o, lits, toks, stack, p, yyS, |stack|, Top(stack), result)
    requires g.move(Top(stack), Peek(toks[p..])) == Reduce(yyn)
    requires Reducible(g, lits, stack, yyn, args) && Act(lits, yyn, args) == None
    ensures MeaningOf(lits, o) == None
  {
    RunsToReduce(g, Config(stack, toks[p..]), o, yyn);
    ActionFails(g, lits, stack, toks[p..], o, yyn, args);
  }

  lemma DriveAccepts(g: Parser, o: Outcome, lits: Literals, toks: seq<Token>, stack: seq<Frame>, p: nat,
                     yyS: seq<YySym>, result: Fields)
    requires Driving(g, o, lits, toks, stack, p, yyS, |stack|, Top(stack), result)
    requires g.move(Top(stack), Peek(toks[p..])) == Accept
    ensures MeaningOf(lits, o) == Some(result) && p == |toks|
  {
    RunsToAccept(g, Config(stack, toks[p..]), o);
    EndIsEnd(g, toks, p);
  }

  lemma EndIsEnd(g: Parser, toks: seq<Token>, p: nat)
    requires g.LegalTokens(toks) && !g.legal(EndKind) && p <= |toks|
    ensures Peek(toks[p..]) == EndKind <==> p == |toks|
  {
    assert p < |toks| ==> toks[p..][0] == toks[p] && g.legal(toks[p].kind);
  }

  lemma DriveStart(g: Parser, o: Outcome, lits: Literals, toks: seq<Token>, yyS: seq<YySym>, result: Fields)
    requires Tabled(g) && g.LegalTokens(toks) && RunsTo(g, Config([], toks), o) && |yyS| > 0 && yyS[0].yys == 0
    ensures Driving(g, o, lits, toks, [], 0, yyS, 0, 0, result)
  {
    assert toks[0..] == toks;
  }

  lemma DriveState(g: Parser, o: Outcome, lits: Literals, toks: seq<Token>, stack: seq<Frame>, p: nat,
                   yyS: seq<YySym>, result: Fields)
    requires Driving(g, o, lits, toks, stack, p, yyS, |stack|, Top(stack), result)
    ensures 0 <= Top(stack) < 28
    ensures forall i :: 0 <= i <= |stack| ==> 0 <= yyS[i].yys < 28
  {
    RunsToStates(g, Config(stack, toks[p..]), o);
    forall i | 0 <= i <= |stack| ensures 0 <= yyS[i].yys < 28 {
      if i > 0 {
        assert ValueAt(g, lits, yyS, stack, i - 1);
      }
    }
  }

  /** One reduction of the driver: it goes on with the reduced stack, or the document has no meaning. */
  method ReduceStep(ghost g: Parser, ghost o: Outcome, lits: Literals, ghost toks: seq<Token>,
                    ghost stack: seq<Frame>, ghost p: nat,
                    yyS: seq<YySym>, yyp: int, result: Fields, yyn: int)
    returns (ok: bool, s: seq<YySym>, top: int, yystate: int, res: Fields)
    requires Driving(g, o, lits, toks, stack, p, yyS, yyp, Top(stack), result)
    requires g.move(Top(stack), Peek(toks[p..])) == Reduce(yyn)
    ensures |g.rhs(yyn)| <= |stack|
    ensures ok ==> Driving(g, o, lits, toks, AfterReduce(g, stack, yyn), p, s, top, yystate, res)
    ensures ok ==> Weight(g, AfterReduce(g, stack, yyn)) < Weight(g, stack)
    ensures !ok ==> MeaningOf(lits, o) == None
  {
    DriveHandle(g, o, lits, toks, stack, p, yyS, result, yyn);
    ghost var args := HandleArgs(g, lits, stack, yyS, yyn);
    ok, s, top, yystate, res := ReduceBy(g, lits, yyn, yyS, yyp, result, stack, args);
    if ok {
      DriveReduce(g, o, lits, toks, stack, p, yyS, result, yyn, args, s, res);
    } else {
      DriveFails(g, o, lits, toks, stack, p, yyS, result, yyn, args);
    }
  }

  /** Shifts the lookahead token. */
  method ShiftToken(ghost g: Parser, ghost o: Outcome, ghost lits: Literals, ghost lx: TokenSource,
                    ghost toks: seq<Token>, ghost stack: seq<Frame>,
                    ghost p: nat, yyS: seq<YySym>, yyp: int, ghost result: Fields, ghost yystate: int,
                    to: int, ghost kind: int, ghost token: int, lval: string)
    returns (s: seq<YySym>, top: int)
    requires LexerItems(lx.items) && toks == Tokens(lx.items) && kind >= 0 && Standing(lx, p, kind, token, lval)
    requires Driving(g, o, lits, toks, stack, p, yyS, yyp, yystate, result)
    requires 0 <= yystate < 28 && to == ShiftOn(yystate, Peek(toks[p..])) != -1
    ensures p < |toks|
    ensures Driving(g, o, lits, toks, stack + [Frame(to, Leaf(toks[p]))], p + 1, s, top, to, result)
    ensures Standing(lx, p + 1, -1, -1, lval)
  {
    ShiftIsMove(g, yystate, Peek(toks[p..]), to);
    s, top := Push(yyS, yyp, ZeroSym.(str := lval), to);
    DriveShift(g, o, lits, toks, stack, p, yyS, result, to, s, lval);
  }

  /** Looks the next token up in the action table, unless the state does not depend on it. */
  method TryShift(lx: TokenSource, yystate: int, kind: int, token: int, str: string, ghost p: nat)
    returns (to: int, c: int, t: int, s: string)
    requires 0 <= yystate < 28 && LexerItems(lx.items) && Standing(lx, p, kind, token, str)
    modifies lx
    ensures Standing(lx, p, c, t, s) && to == ShiftOn(yystate, Peek(Tokens(lx.items)[p..]))
    ensures to != -1 ==> c >= 0
  {
    to, c, t, s := -1, kind, token, str;
    var yyn := YyPact[yystate];
    if yyn <= YyFlag {
      return;
    }
    c, t, s := LookAhead(lx, c, t, s, p);
    to := ActOn(yystate, yyn, t);
  }

  /** The action table's entry for a token, if it is the token's. */
  method ActOn(yystate: int, yypact: int, token: int) returns (to: int)
    requires 0 <= yystate < 28 && yypact == YyPact[yystate] > YyFlag
    ensures to == ShiftOn(yystate, token)
  {
    var yyn := yypact + token;
    if yyn < 0 || yyn >= YyLast {
      return -1;
    }
    ActsAreStates(yyn);
    yyn := YyAct[yyn];
    to := if YyChk[yyn] == token then yyn else -1;
  }

  /** The state's default: a production, 0 for an error, or a negative number for acceptance. */
  method Default(ghost g: Parser, lx: TokenSource, yystate: int, kind: int, token: int, str: string, ghost p: nat)
    returns (yyn: int, c: int, t: int, s: string)
    requires Tabled(g) && 0 <= yystate < 28 && LexerItems(lx.items) && Standing(lx, p, kind, token, str)
    requires ShiftOn(yystate, Peek(Tokens(lx.items)[p..])) == -1
    modifies lx
    ensures Standing(lx, p, c, t, s)
    ensures g.move(yystate, Peek(Tokens(lx.items)[p..])) == if yyn < 0 then Accept else if yyn == 0 then Fail
      else Reduce(yyn)
    ensures yyn < 0 ==> c >= 0
  {
    c, t, s := kind, token, str;
    yyn := YyDef[yystate];
    DefaultIsMove(g, yystate, Peek(Tokens(lx.items)[p..]));
    DefaultRange(yystate);
    if yyn == -2 {
      c, t, s := LookAhead(lx, c, t, s, p);
      yyn := Exception(yystate, t);
    }
  }

  /**
   * The driver. It returns 0 exactly when the tokens before the end of the items have a derivation
   * with a meaning, and then with that meaning; otherwise it returns 1 with an error recorded.
   */
  method ParseItems(ghost g: Parser, ghost o: Outcome, lits: Literals, lx: TokenSource)
    returns (code: int, result: Fields)
    requires Tabled(g) && LexerItems(lx.items) && g.LegalTokens(Tokens(lx.items)) && lx.pos == 0 && !lx.failed
    requires RunsTo(g, Config([], Tokens(lx.items)), o)
    modifies lx
    ensures code == 0 || (code == 1 && lx.failed)
    ensures code == 0 <==> MeaningOf(lits, o).Some?
    ensures code == 0 ==> MeaningOf(lits, o) == Some(result) && lx.failed == LexFails(lx.items)
  {
    ghost var toks := Tokens(lx.items);
    TokensAt(lx.items, 0);
    var yyS := seq(YyInitialStackSize, _ => ZeroSym);
    var yyp := -1;
    var yystate, kind, token, lval := 0, -1, -1, "";
    result := map[];
    yyS, yyp := Push(yyS, yyp, ZeroSym, yystate);
    ghost var stack: seq<Frame> := [];
    ghost var p: nat := 0;
    DriveStart(g, o, lits, toks, yyS, result);
    while true
      invariant Driving(g, o, lits, toks, stack, p, yyS, yyp, yystate, result)
      invariant Standing(lx, p, kind, token, lval)
      decreases |toks| - p, Weight(g, stack)
    {
      DriveState(g, o, lits, toks, stack, p, yyS, result);
      var to;
      to, kind, token, lval := TryShift(lx, yystate, kind, token, lval, p);
      if to != -1 {
        yyS, yyp := ShiftToken(g, o, lits, lx, toks, stack, p, yyS, yyp, result, yystate, to, kind, token, lval);
        stack, p := stack + [Frame(to, Leaf(toks[p]))], p + 1;
        yystate, kind, token := to, -1, -1;
        continue;
      }
      var yyn;
      yyn, kind, token, lval := Default(g, lx, yystate, kind, token, lval, p);
      if yyn < 0 {
        DriveAccepts(g, o, lits, toks, stack, p, yyS, result);
        return 0, result;
      }
      if yyn == 0 {
        RunsToFail(g, Config(stack, toks[p..]), o);
        lx.Error();
        var recovered := Recover(yyS, yyp);
        assert recovered == None;
        return 1, result;
      }
      var ok;
      ok, yyS, yyp, yystate, result := ReduceStep(g, o, lits, toks, stack, p, yyS, yyp, result, yyn);
      if !ok {
        lx.Error();
        return 1, result;
      }
      stack := AfterReduce(g, stack, yyn);
    }
  }

  /**
   * Parsing a document. The result is the meaning of the only derivation of its tokens, and there is
   * one exactly when no lexical error ends them, they derive from the grammar, and the meaning is defined.
   */
  method ParseText(lits: Literals, items: seq<Item>) returns (r: Option<Fields>)
    requires LexerItems(items)
    ensures r.Some? <==> !LexFails(items) && exists t :: DocumentOf(Toml, Tokens(items), t) && Eval(lits, t).Some?
    ensures r.Some? ==> forall t :: DocumentOf(Toml, Tokens(items), t) ==> Eval(lits, t) == Some(SDocument(r.value))
  {
    var lx := new TokenSource(items);
    TomlTabled();
    TokensAt(items, 0);
    TomlMeaning(lits, Tokens(items));
    TomlRunsTo(Tokens(items));
    var code, result := ParseItems(Toml, Parses(Toml, Tokens(items)), lits, lx);
    r := if code == 0 && !lx.failed then Some(result) else None;
  }

  lemma TomlRunsTo(toks: seq<Token>)
    requires Toml.Coherent() && Toml.LegalTokens(toks)
    ensures RunsTo(Toml, Config([], toks), Parses(Toml, toks))
  {
  }

  /** Everything the lexer puts out is what the parser expects. */
  lemma LexerOutput(text: string)
    ensures LexerItems(TomlLexer.ItemsOf(text))
  {
    var items := TomlLexer.ItemsOf(text);
    var spans, upto := TomlLexer.TokensCover(text);
    forall i | 0 <= i < |items| ensures items[i].typ == ItemEof || ItemError <= items[i].typ <= 57356 {
      if i < |spans| {
        assert items[i] == items[..|spans|][i] && TomlLexer.TokenOk(text, items[..|spans|][i], spans[i]);
      }
    }
  }

  /**
   * Decoding a text. The result is the meaning of the only document whose tokens are the text's, and there
   * is one exactly when the text has no lexical error, its tokens derive from the grammar, and the meaning is defined.
   */
  method Parse(lits: Literals, text: string) returns (r: Option<Fields>)
    ensures var items := TomlLexer.ItemsOf(text);
      && (r.Some? <==> !LexFails(items) && exists t :: DocumentOf(Toml, Tokens(items), t) && Eval(lits, t).Some?)
      && (r.Some? ==> forall t :: DocumentOf(Toml, Tokens(items), t) ==> Eval(lits, t) == Some(SDocument(r.value)))
  {
    var items := TomlLexer.Lex(text);
    LexerOutput(text);
    r := ParseText(lits, items);
  }

  /** A document that spells the tokens. */
  ghost predicate DocumentOf(g: Parser, toks: seq<Token>, t: Tree) {
    g.Document(t) && Yield(t) == toks
  }

  /** The tokens have a document exactly when the parser accepts them, and only the one it finds. */
  lemma OnlyDocument(g: Parser, toks: seq<Token>)
    requires g.Coherent() && g.FollowCoherent() && g.LegalTokens(toks)
    ensures forall t :: DocumentOf(g, toks, t) <==> Parses(g, toks) == Accepts(t)
  {
    forall t ensures DocumentOf(g, toks, t) <==> Parses(g, toks) == Accepts(t) {
      if Parses(g, toks) == Accepts(t) {
        ParserSound(g, toks);
      }
      if DocumentOf(g, toks, t) {
        ParserComplete(g, t);
      }
    }
  }

  /** What the parser computes is the meaning of a document that spells the tokens. */
  lemma MeaningOfDocument(g: Parser, lits: Literals, toks: seq<Token>)
    requires g.Coherent() && g.FollowCoherent() && g.LegalTokens(toks)
    requires forall t :: g.Document(t) && Eval(lits, t).Some? ==> Eval(lits, t).value.SDocument?
    ensures MeaningOf(lits, Parses(g, toks)).Some? <==> exists t :: DocumentOf(g, toks, t) && Eval(lits, t).Some?
    ensures MeaningOf(lits, Parses(g, toks)).Some? ==> forall t :: DocumentOf(g, toks, t) ==>
      Eval(lits, t) == Some(SDocument(MeaningOf(lits, Parses(g, toks)).value))
  {
    OnlyDocument(g, toks);
    if t :| DocumentOf(g, toks, t) && Eval(lits, t).Some? {
      assert g.Document(t);
    }
    if MeaningOf(lits, Parses(g, toks)).Some? {
      assert DocumentOf(g, toks, Parses(g, toks).tree);
    }
  }

  lemma TomlMeaning(lits: Literals, toks: seq<Token>)
    requires Toml.LegalTokens(toks)
    ensures Toml.Coherent()
    ensures MeaningOf(lits, Parses(Toml, toks)).Some? <==> exists t :: DocumentOf(Toml, toks, t) && Eval(lits, t).Some?
    ensures MeaningOf(lits, Parses(Toml, toks)).Some? ==> forall t :: DocumentOf(Toml, toks, t) ==>
      Eval(lits, t) == Some(SDocument(MeaningOf(lits, Parses(Toml, toks)).value))
  {
    TomlCoherent();
    forall t | Toml.Document(t) && Eval(lits, t).Some? ensures Eval(lits, t).value.SDocument? {
      DocumentSort(lits, t);
    }
    MeaningOfDocument(Toml, lits, toks);
  }

  lemma DocumentSort(lits: Literals, t: Tree)
    requires Toml.Document(t)
    ensures Eval(lits, t).Some? ==> Eval(lits, t).value.SDocument?
  {
    if t.Node? && Eval(lits, t).Some? {
      EvalAllAt(lits, t.kids);
      ActSort(lits, t.prod, EvalAll(lits, t.kids).value);
    }
  }
}
