/** Documents as texts: every document of the grammar can be written down, and is read back from what is written. */
module TomlText {
  import opened Base
  import opened LRTheory
  import opened TomlGrammar
  import opened TomlAutomaton
  import opened TomlValues
  import opened TomlItems
  import L = TomlLexer
  import opened TomlParse

  type Word = LRTheory.Token

  /* ---- writing a document ---- */

  /**
   * Where a writer stands: at the start of an entry or section, after a value, before a value, after a key, or in a
   * section's name.
   */
  datatype Place = OnNewLine | AfterValue | BeforeValue | BeforeEqual | InName(double: bool, first: bool)

  /** What a key or an opening bracket at the start of a line leads into. */
  function Opened(kind: int): Option<Place> {
    if kind == KeyKind then Some(BeforeEqual)
    else if kind == LeftKind then Some(InName(false, true))
    else if kind == LeftDoubleKind then Some(InName(true, true))
    else None
  }

  /** Where a token leads, if it may stand at the place. */
  function After(place: Place, kind: int): Option<Place> {
    match place
    case OnNewLine => Opened(kind)
    case AfterValue =>
      if kind == CommaKind then Some(BeforeValue)
      else if kind == RightKind then Some(AfterValue)
      else Opened(kind)
    case BeforeValue =>
      if kind == BoolKind || kind == NumberKind || kind == StringKind then Some(AfterValue)
      else if kind == LeftKind then Some(BeforeValue)
      else None
    case BeforeEqual => if kind == EqualKind then Some(BeforeValue) else None
    case InName(double, first) =>
      if kind == KeyKind then Some(InName(double, false))
      else if !first && kind == (if double then RightDoubleKind else RightKind) then Some(OnNewLine)
      else None
  }

  function AfterAll(place: Place, toks: seq<Word>): Option<Place>
    decreases toks
  {
    if toks == [] then Some(place)
    else match After(place, toks[0].kind)
      case None => None
      case Some(next) => AfterAll(next, toks[1..])
  }

  lemma {:induction false} AfterBoth(place: Place, a: seq<Word>, b: seq<Word>)
    ensures AfterAll(place, a + b) == match AfterAll(place, a) case None => None case Some(next) => AfterAll(next, b)
    decreases a
  {
    if a == [] {
      assert a + b == b;
    } else {
      assert (a + b)[1..] == a[1..] + b;
      if After(place, a[0].kind).Some? {
        AfterBoth(After(place, a[0].kind).value, a[1..], b);
      }
    }
  }

  predicate Opens(place: Place) {
    place == OnNewLine || place == AfterValue
  }

  /** Entries and sections start on a line of their own, and the keys of a name have a dot between them. */
  function Lead(place: Place, kind: int): string {
    if Opens(place) && (kind == KeyKind || kind == LeftKind || kind == LeftDoubleKind) then "\n"
    else if place.InName? && !place.first && kind == KeyKind then "."
    else ""
  }

  function Written(place: Place, toks: seq<Word>): string
    decreases toks
  {
    if toks == [] then ""
    else match After(place, toks[0].kind)
      case None => ""
      case Some(next) => Lead(place, toks[0].kind) + toks[0].text + " " + Written(next, toks[1..])
  }

  /** A document's text. */
  function TextOf(t: Tree): string {
    Written(OnNewLine, Yield(t))
  }

  /* ---- documents can be written ---- */

  /** Where a part of a document may start. */
  predicate Starts(sym: int, place: Place) {
    if sym >= 0 then After(place, sym).Some?
    else if sym == ValueSym || sym == ValuesSym then place == BeforeValue
    else if sym == KeysSym then place.InName? && place.first
    else Opens(place)
  }

  /** Where it leads from there. */
  predicate Leads(sym: int, place: Place, next: Place) {
    if sym >= 0 then After(place, sym) == Some(next)
    else if sym == EntrySym || sym == ValueSym || sym == ValuesSym then next == AfterValue
    else if sym == KeysSym then place.InName? && next == InName(place.double, false)
    else Opens(next)
  }

  /** Where the parts of production p before number n lead to. */
  predicate Within(p: int, place: Place, n: nat, q: Place) {
    if n == 0 then q == place
    else match p
      case 4 => if n == 1 then q == InName(false, true) else if n == 2 then q == InName(false, false) else Opens(q)
      case 5 => if n == 1 then q == InName(true, true) else if n == 2 then q == InName(true, false) else Opens(q)
      case 6 => place.InName? && q == InName(place.double, false)
      case 7 => place.InName? && q == InName(place.double, false)
      case 9 => if n == 1 then Opens(q) else q == AfterValue
      case 10 => if n == 1 then q == BeforeEqual else if n == 2 then q == BeforeValue else q == AfterValue
      case 14 => if n == 1 then q == BeforeValue else q == AfterValue
      case 16 => if n == 2 then q == BeforeValue else q == AfterValue
      case _ => if p <= 3 then Opens(q) else q == AfterValue
  }

  lemma WithinStarts(p: int, place: Place, n: nat, q: Place)
    requires 1 <= p <= 16 && n < |Rhs(p)| && Starts(Lhs(p), place) && Within(p, place, n, q)
    ensures Starts(Rhs(p)[n], q)
  {
  }

  lemma WithinGoesOn(p: int, place: Place, n: nat, q: Place, next: Place)
    requires 1 <= p <= 16 && n < |Rhs(p)| && Starts(Lhs(p), place)
    requires Within(p, place, n, q) && Leads(Rhs(p)[n], q, next)
    ensures Within(p, place, n + 1, next)
  {
  }

  lemma WithinEnds(p: int, place: Place, q: Place)
    requires 1 <= p <= 16 && Starts(Lhs(p), place) && Within(p, place, |Rhs(p)|, q)
    ensures Leads(Lhs(p), place, q)
  {
  }

  lemma OneMoreKid(kids: seq<Tree>, n: nat)
    requires 0 < n <= |kids|
    ensures YieldAll(kids[..n]) == YieldAll(kids[..n - 1]) + Yield(kids[n - 1])
  {
    assert kids[..n] == kids[..n - 1] + [kids[n - 1]];
    YieldAllAppend(kids[..n - 1], [kids[n - 1]]);
    YieldOne(kids[n - 1]);
  }

  /** A part of a document can be written where its symbol may start. */
  lemma {:induction false} TreeLeads(t: Tree, place: Place) returns (next: Place)
    requires Toml.Derives(t) && Starts(Toml.Root(t), place)
    ensures AfterAll(place, Yield(t)) == Some(next) && Leads(Toml.Root(t), place, next)
    decreases t, 1, 0
  {
    match t
    case Leaf(tok) =>
      next := After(place, tok.kind).value;
      assert AfterAll(next, [tok][1..]) == Some(next);
    case Node(p, kids) =>
      next := KidsLead(t, place, |kids|);
      assert kids[..|kids|] == kids;
      WithinEnds(p, place, next);
  }

  lemma KidDerives(t: Tree, n: nat)
    requires Toml.Derives(t) && t.Node? && n < |t.kids|
    ensures Toml.Derives(t.kids[n]) && 1 <= t.prod <= 16 && n < |Rhs(t.prod)| && Toml.Root(t.kids[n]) == Rhs(t.prod)[n]
    ensures Toml.Root(t) == Lhs(t.prod)
  {
  }

  lemma {:induction false} KidsLead(t: Tree, place: Place, n: nat) returns (q: Place)
    requires Toml.Derives(t) && t.Node? && Starts(Toml.Root(t), place) && n <= |t.kids|
    ensures AfterAll(place, YieldAll(t.kids[..n])) == Some(q) && Within(t.prod, place, n, q)
    decreases t, 0, n
  {
    q := place;
    if n > 0 {
      var before := KidsLead(t, place, n - 1);
      KidStarts(t, place, n - 1, before);
      q := TreeLeads(t.kids[n - 1], before);
      KidLeads(t, place, n, before, q);
    }
  }

  /** The next part may start where the parts before it lead. */
  lemma KidStarts(t: Tree, place: Place, n: nat, before: Place)
    requires Toml.Derives(t) && t.Node? && Starts(Toml.Root(t), place) && n < |t.kids|
    requires Within(t.prod, place, n, before)
    ensures Toml.Derives(t.kids[n]) && Starts(Toml.Root(t.kids[n]), before)
  {
    KidDerives(t, n);
    WithinStarts(t.prod, place, n, before);
  }

  /** One more part leads to where the production says. */
  lemma KidLeads(t: Tree, place: Place, n: nat, before: Place, q: Place)
    requires Toml.Derives(t) && t.Node? && Starts(Toml.Root(t), place) && 0 < n <= |t.kids|
    requires AfterAll(place, YieldAll(t.kids[..n - 1])) == Some(before) && Within(t.prod, place, n - 1, before)
    requires AfterAll(before, Yield(t.kids[n - 1])) == Some(q) && Leads(Toml.Root(t.kids[n - 1]), before, q)
    ensures AfterAll(place, YieldAll(t.kids[..n])) == Some(q) && Within(t.prod, place, n, q)
  {
    KidDerives(t, n - 1);
    WithinGoesOn(t.prod, place, n - 1, before, q);
    OneMoreKid(t.kids, n);
    AfterBoth(place, YieldAll(t.kids[..n - 1]), Yield(t.kids[n - 1]));
  }

  /* ---- what is written is read back ---- */

  /* What some predicates say is only unfolded where a proof mentions its topic. */

  const Spelling: nat := 1
  const Read: nat := 2
  const Writing: nat := 3

  /** The text of a token has the form of its kind. */
  ghost predicate Spelled(w: Word) {
    if w.kind == BoolKind then w.text == "true" || w.text == "false"
    else if w.kind == KeyKind then w.text != "" && forall i :: 0 <= i < |w.text| ==> L.IsAlphaNumeric(w.text[i])
    else if w.kind == NumberKind then
      && w.text != "" && (w.text[0] in {'+', '-'} || L.IsDigit(w.text[0]))
      && exists whole, frac :: 0 <= whole <= frac <= |w.text| && L.IsNumber(w.text, 0, whole, frac, |w.text|)
    else if w.kind == StringKind then L.IsString(w.text, 0, |w.text|)
    else w.text == Bracket(w.kind)
  }

  ghost predicate WellSpelled(w: Word) {
    forall k {:trigger Unfold(k)} :: k == Spelling && Unfold(k) ==> Spelled(w)
  }

  function Bracket(kind: int): string {
    if kind == LeftKind then "["
    else if kind == LeftDoubleKind then "[["
    else if kind == RightKind then "]"
    else if kind == RightDoubleKind then "]]"
    else if kind == CommaKind then ","
    else "="
  }

  function TypeOf(kind: int): int {
    kind - 2 + YyPrivate
  }

  function ModeAt(place: Place): L.Mode {
    match place
    case OnNewLine => L.InBody
    case AfterValue => L.InValue
    case BeforeValue => L.InValue
    case BeforeEqual => L.AfterKey
    case InName(double, first) => if first then L.NameStart(double) else L.NameEnd(double)
  }

  /** The lexer's mode behind the lead of a token. */
  function ModeFor(place: Place, kind: int): L.Mode {
    if Opens(place) && Opened(kind).Some? then L.InBody
    else if place.InName? && kind == KeyKind then L.NameStart(place.double)
    else ModeAt(place)
  }

  /** The word stands in the text at p, and a blank after it. */
  predicate StandsAt(text: string, p: nat, word: string) {
    p + |word| < |text| && text[p..p + |word|] == word && text[p + |word|] == ' '
  }

  lemma RuneAt(text: string, p: nat, word: string, i: nat)
    requires StandsAt(text, p, word) && i < |word|
    ensures text[p + i] == word[i]
  {
    assert text[p..p + |word|][i] == text[p + i];
  }

  lemma {:induction false} WordEndsAt(text: string, i: nat, end: nat)
    requires i <= end <= |text| && L.WordEnds(text, end) && forall k :: i <= k < end ==> L.IsAlphaNumeric(text[k])
    ensures L.WordEnd(text, i) == end
    decreases end - i
  {
    if i < end {
      WordEndsAt(text, i + 1, end);
    }
  }

  lemma ReadsKey(text: string, p: nat, word: string)
    requires StandsAt(text, p, word) && forall i :: 0 <= i < |word| ==> L.IsAlphaNumeric(word[i])
    ensures L.WordEnd(text, p) == p + |word|
  {
    forall k | p <= k < p + |word| ensures L.IsAlphaNumeric(text[k]) {
      RuneAt(text, p, word, k - p);
    }
    WordEndsAt(text, p, p + |word|);
  }

  lemma {:induction false} RunEndsAt(text: string, i: nat, end: nat, valid: set<char>)
    requires i <= end <= |text| && L.AllIn(text, i, end, valid) && (end == |text| || text[end] !in valid)
    ensures L.RunEnd(text, i, valid) == end
    decreases end - i
  {
    if i < end {
      RunEndsAt(text, i + 1, end, valid);
    }
  }

  /** A number that ends before a blank is the longest there is. */
  lemma LongestNumber(text: string, p: nat, whole: nat, frac: nat, end: nat)
    requires p <= whole <= frac <= end < |text| && text[end] == ' ' && L.IsNumber(text, p, whole, frac, end)
    ensures L.NumberEnd(text, p) == end
  {
    RunEndsAt(text, L.AfterSign(text, p), whole, L.Digits);
    assert L.WholeEnd(text, p) == whole;
    FractionEnds(text, p, whole, frac);
    if frac < end {
      RunEndsAt(text, L.AfterSign(text, frac + 1), end, L.Digits);
    }
  }

  lemma FractionEnds(text: string, p: nat, whole: nat, frac: nat)
    requires p <= whole <= frac < |text| && L.WholeEnd(text, p) == whole && (whole == frac ==> text[whole] != '.')
    requires text[frac] !in L.Digits
    requires (whole < frac ==> text[whole] == '.' && L.AllIn(text, whole + 1, frac, L.Digits))
    ensures L.FracEnd(text, p) == frac
  {
    if whole < frac {
      RunEndsAt(text, whole + 1, frac, L.Digits);
    }
  }

  lemma NumberMoves(text: string, p: nat, word: string, whole: nat, frac: nat)
    requires StandsAt(text, p, word) && whole <= frac <= |word| && L.IsNumber(word, 0, whole, frac, |word|)
    ensures L.IsNumber(text, p, p + whole, p + frac, p + |word|)
  {
    forall i | 0 <= i < |word| ensures text[p + i] == word[i] {
      RuneAt(text, p, word, i);
    }
    SignMoves(text, p, word, 0);
    DigitsMove(text, p, word, L.AfterSign(word, 0), whole);
    if whole < frac {
      DigitsMove(text, p, word, whole + 1, frac);
    }
    if frac < |word| {
      SignMoves(text, p, word, frac + 1);
      DigitsMove(text, p, word, L.AfterSign(word, frac + 1), |word|);
    }
  }

  lemma SignMoves(text: string, p: nat, word: string, i: nat)
    requires StandsAt(text, p, word) && i <= |word|
    ensures L.AfterSign(text, p + i) == p + L.AfterSign(word, i)
  {
    if i < |word| {
      RuneAt(text, p, word, i);
    }
  }

  lemma DigitsMove(text: string, p: nat, word: string, i: nat, j: nat)
    requires StandsAt(text, p, word) && j <= |word| && L.AllIn(word, i, j, L.Digits)
    ensures L.AllIn(text, p + i, p + j, L.Digits)
  {
    forall k | p + i <= k < p + j ensures text[k] in L.Digits {
      RuneAt(text, p, word, k - p);
    }
  }

  lemma {:induction false} SlashesMove(text: string, p: nat, word: string, i: nat)
    requires StandsAt(text, p, word) && 1 <= i <= |word|
    ensures L.EvenSlashes(text, p + 1, p + i) == L.EvenSlashes(word, 1, i)
    decreases i
  {
    if i > 1 {
      RuneAt(text, p, word, i - 1);
      if i > 2 {
        RuneAt(text, p, word, i - 2);
        SlashesMove(text, p, word, i - 2);
      }
    }
  }

  lemma StringMoves(text: string, p: nat, word: string)
    requires StandsAt(text, p, word) && L.IsString(word, 0, |word|)
    ensures L.IsString(text, p, p + |word|)
  {
    RuneAt(text, p, word, 0);
    RuneAt(text, p, word, |word| - 1);
    SlashesMove(text, p, word, |word| - 1);
    var a := p + 1;
    forall i | a <= i < p + |word| - 1 ensures !L.Closes(text, a, i) && text[i] != '\n' && text[i] != L.Eof {
      RuneAt(text, p, word, i - p);
      SlashesMove(text, p, word, i - p);
      assert !L.Closes(word, 1, i - p);
    }
  }

  lemma ReadsNumber(text: string, p: nat, word: string, whole: nat, frac: nat)
    requires StandsAt(text, p, word) && word != "" && (word[0] in {'+', '-'} || L.IsDigit(word[0]))
    requires whole <= frac <= |word| && L.IsNumber(word, 0, whole, frac, |word|)
    ensures L.Reads(text, L.InValue, p) == L.Token(ItemNumber, p + |word|, L.InValue)
  {
    NumberMoves(text, p, word, whole, frac);
    LongestNumber(text, p, p + whole, p + frac, p + |word|);
    NumberFound(text, p, word);
  }

  lemma NumberFound(text: string, p: nat, word: string)
    requires StandsAt(text, p, word) && word != "" && (word[0] in {'+', '-'} || L.IsDigit(word[0]))
    requires L.NumberEnd(text, p) == p + |word|
    ensures L.Reads(text, L.InValue, p) == L.Token(ItemNumber, p + |word|, L.InValue)
  {
    RuneAt(text, p, word, 0);
    L.NumberToken(text, p);
  }

  lemma ReadsString(text: string, p: nat, w: Word)
    requires StandsAt(text, p, w.text) && Spelled(w) && w.kind == StringKind
    ensures L.Reads(text, L.InValue, p) == L.Token(ItemString, p + |w.text|, L.InValue)
  {
    RuneAt(text, p, w.text, 0);
    StringMoves(text, p, w.text);
    L.StringEndsOnce(text, p, p + |w.text|);
  }

  lemma ReadsBool(text: string, p: nat, w: Word)
    requires StandsAt(text, p, w.text) && Spelled(w) && w.kind == BoolKind
    ensures L.Reads(text, L.InValue, p) == L.Token(ItemBool, p + |w.text|, L.InValue)
  {
    RuneAt(text, p, w.text, 0);
    assert L.Spells(text, p, w.text);
    if w.text == "false" {
      assert !L.Spells(text, p, "true") by {
        assert p + 4 <= |text| ==> text[p..p + 4][0] == text[p];
      }
    }
  }

  /** The word starts with its first rune, and has its second behind that. */
  lemma WordSpells(text: string, p: nat, word: string)
    requires StandsAt(text, p, word) && word != ""
    ensures p < |text| && text[p] == word[0] && L.Spells(text, p, word)
    ensures |word| == 1 ==> p + 1 < |text| && text[p + 1] == ' '
  {
    RuneAt(text, p, word, 0);
  }

  lemma NotDoubled(text: string, p: nat, double: string)
    requires p + 1 < |text| && text[p + 1] == ' ' && |double| == 2 && double[1] != ' '
    ensures !L.Spells(text, p, double)
  {
    assert p + 2 <= |text| ==> text[p..p + 2][1] == text[p + 1];
  }

  lemma ReadsOpening(text: string, p: nat, kind: int)
    requires (kind == LeftKind || kind == LeftDoubleKind) && StandsAt(text, p, Bracket(kind))
    ensures L.BodyNext(text, p) == L.Token(TypeOf(kind), p + |Bracket(kind)|, L.NameStart(kind == LeftDoubleKind))
  {
    WordSpells(text, p, Bracket(kind));
    if kind == LeftKind {
      NotDoubled(text, p, "[[");
    }
  }

  lemma ReadsClosing(text: string, p: nat, double: bool)
    requires StandsAt(text, p, Bracket(if double then RightDoubleKind else RightKind))
    ensures var kind := if double then RightDoubleKind else RightKind;
      L.NameEndNext(text, p, double) == L.Token(TypeOf(kind), p + |Bracket(kind)|, L.InBody)
  {
    WordSpells(text, p, Bracket(if double then RightDoubleKind else RightKind));
  }

  lemma ReadsPunctuation(text: string, p: nat, kind: int)
    requires (kind == LeftKind || kind == RightKind || kind == CommaKind) && StandsAt(text, p, Bracket(kind))
    ensures L.ValueNext(text, p) == L.Token(TypeOf(kind), p + 1, L.InValue)
  {
    WordSpells(text, p, Bracket(kind));
  }

  lemma ReadsEqual(text: string, p: nat)
    requires StandsAt(text, p, Bracket(EqualKind))
    ensures L.AfterKeyNext(text, p) == L.Token(TypeOf(EqualKind), p + 1, L.InValue)
  {
    WordSpells(text, p, Bracket(EqualKind));
  }

  lemma ReadsBracket(text: string, p: nat, place: Place, kind: int)
    requires LeftKind <= kind <= EqualKind && After(place, kind).Some? && StandsAt(text, p, Bracket(kind))
    ensures L.Reads(text, ModeFor(place, kind), p) ==
      L.Token(TypeOf(kind), p + |Bracket(kind)|, ModeAt(After(place, kind).value))
  {
    match place
    case InName(double, _) => ReadsClosing(text, p, double);
    case BeforeEqual => ReadsEqual(text, p);
    case BeforeValue => ReadsPunctuation(text, p, kind);
    case _ =>
      if kind == CommaKind || kind == RightKind {
        ReadsPunctuation(text, p, kind);
      } else {
        ReadsOpening(text, p, kind);
      }
  }

  lemma ReadsName(text: string, p: nat, place: Place, w: Word)
    requires StandsAt(text, p, w.text) && WellSpelled(w) && w.kind == KeyKind && After(place, KeyKind).Some?
    ensures L.Reads(text, ModeFor(place, w.kind), p) ==
      L.Token(TypeOf(w.kind), p + |w.text|, ModeAt(After(place, w.kind).value))
  {
    assert Unfold(Spelling);
    RuneAt(text, p, w.text, 0);
    ReadsKey(text, p, w.text);
  }

  lemma ReadsLiteral(text: string, p: nat, w: Word)
    requires StandsAt(text, p, w.text) && WellSpelled(w)
    requires (w.kind == NumberKind || w.kind == StringKind || w.kind == BoolKind)
    ensures L.Reads(text, L.InValue, p) == L.Token(TypeOf(w.kind), p + |w.text|, L.InValue)
  {
    assert Unfold(Spelling);
    if w.kind == NumberKind {
      var whole, frac :| 0 <= whole <= frac <= |w.text| && L.IsNumber(w.text, 0, whole, frac, |w.text|);
      ReadsNumber(text, p, w.text, whole, frac);
    } else if w.kind == StringKind {
      ReadsString(text, p, w);
    } else {
      ReadsBool(text, p, w);
    }
  }

  /** A written token is the one that the lexer finds, and leaves it where the writer stands after it. */
  lemma ReadsWord(text: string, p: nat, place: Place, w: Word)
    requires StandsAt(text, p, w.text) && WellSpelled(w) && After(place, w.kind).Some?
    ensures L.Reads(text, ModeFor(place, w.kind), p) ==
      L.Token(TypeOf(w.kind), p + |w.text|, ModeAt(After(place, w.kind).value))
  {
    if w.kind == KeyKind {
      ReadsName(text, p, place, w);
    } else if w.kind == NumberKind || w.kind == StringKind || w.kind == BoolKind {
      ReadsLiteral(text, p, w);
    } else {
      BracketSpelled(w);
      ReadsBracket(text, p, place, w.kind);
    }
  }

  lemma BracketSpelled(w: Word)
    requires WellSpelled(w) && LeftKind <= w.kind <= EqualKind
    ensures w.text == Bracket(w.kind)
  {
    assert Unfold(Spelling);
  }

  /** From a place in a text on, these are the items. */
  ghost predicate ReadsAs(text: string, mode: L.Mode, p: nat, items: seq<Item>) {
    p <= |text| && forall k {:trigger Unfold(k)} :: k == Read && Unfold(k) ==> L.Items(text, mode, p) == items
  }

  ghost predicate Finds(text: string, mode: L.Mode, p: nat, found: L.Found) {
    p <= |text| && forall k {:trigger Unfold(k)} :: k == Read && Unfold(k) ==> L.Reads(text, mode, p) == found
  }

  lemma WordFound(text: string, p: nat, place: Place, w: Word, next: Place)
    requires StandsAt(text, p, w.text) && WellSpelled(w) && After(place, w.kind) == Some(next)
    ensures Finds(text, ModeFor(place, w.kind), p, L.Token(TypeOf(w.kind), p + |w.text|, ModeAt(next)))
  {
    ReadsWord(text, p, place, w);
  }

  lemma TokenReads(text: string, mode: L.Mode, p: nat, item: Item, next: L.Mode, items: seq<Item>)
    requires p + |item.val| <= |text| && text[p..p + |item.val|] == item.val
    requires Finds(text, mode, p, L.Token(item.typ, p + |item.val|, next)) && ReadsAs(text, next, p + |item.val|, items)
    ensures ReadsAs(text, mode, p, [item] + items)
  {
    assert Unfold(Read);
    L.TokenItems(text, mode, p, item.typ, p + |item.val|, next);
  }

  lemma BlankReads(text: string, mode: L.Mode, p: nat, end: nat, next: L.Mode, items: seq<Item>)
    requires p <= |text| && L.Reads(text, mode, p) == L.Blank(end, next) && ReadsAs(text, next, end, items)
    ensures ReadsAs(text, mode, p, items)
  {
    assert Unfold(Read);
  }

  /** A blank is left out wherever the writer puts one. */
  lemma BlankFound(text: string, p: nat, place: Place)
    requires p < |text| && text[p] == ' '
    ensures L.Reads(text, ModeAt(place), p) == L.Blank(p + 1, ModeAt(place))
  {
  }

  lemma LeadFound(text: string, p: nat, place: Place, kind: int)
    requires Lead(place, kind) != "" && p < |text| && text[p] == Lead(place, kind)[0]
    ensures L.Reads(text, ModeAt(place), p) == L.Blank(p + 1, ModeFor(place, kind))
  {
  }

  lemma LeadIsSkipped(text: string, p: nat, place: Place, kind: int, items: seq<Item>)
    requires p + |Lead(place, kind)| <= |text| && text[p..p + |Lead(place, kind)|] == Lead(place, kind)
    requires ReadsAs(text, ModeFor(place, kind), p + |Lead(place, kind)|, items)
    ensures ReadsAs(text, ModeAt(place), p, items)
  {
    if Lead(place, kind) != "" {
      assert text[p] == text[p..p + 1][0];
      LeadFound(text, p, place, kind);
      BlankReads(text, ModeAt(place), p, p + 1, ModeFor(place, kind), items);
    }
  }

  function ItemOf(w: Word): Item {
    Item(TypeOf(w.kind), w.text)
  }

  const EndItem: Item := Item(ItemEof, "")

  /** The items of the tokens, and the end of input. */
  function ItemsFor(toks: seq<Word>): seq<Item> {
    if toks == [] then [EndItem] else [ItemOf(toks[0])] + ItemsFor(toks[1..])
  }

  /** The token stands at p behind its lead; q is after the blank behind it, and the writer goes on at next. */
  ghost predicate WordStands(text: string, p: nat, place: Place, w: Word, q: nat, next: Place) {
    var at := p + |Lead(place, w.kind)|;
    && at <= |text| && text[p..at] == Lead(place, w.kind) && StandsAt(text, at, w.text) && WellSpelled(w)
    && After(place, w.kind) == Some(next) && q == at + |w.text| + 1
  }

  ghost predicate WordAt(text: string, p: nat, place: Place, w: Word, q: nat, next: Place) {
    forall k {:trigger Unfold(k)} :: k == Writing && Unfold(k) ==> WordStands(text, p, place, w, q, next)
  }

  lemma BlankAfterIsSkipped(text: string, p: nat, place: Place, w: Word, q: nat, next: Place, items: seq<Item>)
    requires WordAt(text, p, place, w, q, next) && ReadsAs(text, ModeAt(next), q, items)
    ensures q > 0 && ReadsAs(text, ModeAt(next), q - 1, items)
  {
    assert Unfold(Writing);
    BlankFound(text, q - 1, next);
    BlankReads(text, ModeAt(next), q - 1, q, ModeAt(next), items);
  }

  lemma WordParts(text: string, p: nat, place: Place, w: Word, q: nat, next: Place)
    requires WordAt(text, p, place, w, q, next)
    ensures StandsAt(text, p + |Lead(place, w.kind)|, w.text) && WellSpelled(w)
    ensures After(place, w.kind) == Some(next) && q == p + |Lead(place, w.kind)| + |w.text| + 1
  {
    assert Unfold(Writing);
  }

  lemma TokenStep(text: string, p: nat, place: Place, w: Word, q: nat, next: Place, items: seq<Item>)
    requires WordAt(text, p, place, w, q, next) && q > 0 && ReadsAs(text, ModeAt(next), q - 1, items)
    ensures ReadsAs(text, ModeFor(place, w.kind), p + |Lead(place, w.kind)|, [ItemOf(w)] + items)
  {
    WordParts(text, p, place, w, q, next);
    var at := p + |Lead(place, w.kind)|;
    WordFound(text, at, place, w, next);
    TokenReads(text, ModeFor(place, w.kind), at, ItemOf(w), ModeAt(next), items);
  }

  lemma LeadStep(text: string, p: nat, place: Place, w: Word, q: nat, next: Place, items: seq<Item>)
    requires WordAt(text, p, place, w, q, next)
    requires ReadsAs(text, ModeFor(place, w.kind), p + |Lead(place, w.kind)|, items)
    ensures ReadsAs(text, ModeAt(place), p, items)
  {
    assert Unfold(Writing);
    LeadIsSkipped(text, p, place, w.kind, items);
  }

  /** A token is read with its lead and the blank after it. */
  lemma WordIsRead(text: string, p: nat, place: Place, w: Word, q: nat, next: Place, items: seq<Item>)
    requires WordAt(text, p, place, w, q, next) && ReadsAs(text, ModeAt(next), q, items)
    ensures ReadsAs(text, ModeAt(place), p, [ItemOf(w)] + items)
  {
    BlankAfterIsSkipped(text, p, place, w, q, next, items);
    TokenStep(text, p, place, w, q, next, items);
    LeadStep(text, p, place, w, q, next, [ItemOf(w)] + items);
  }

  /** From a place in the text on, the tokens are written, and they lead to where a document may end. */
  ghost predicate StandsWritten(text: string, p: nat, place: Place, toks: seq<Word>) {
    && p <= |text| && text[p..] == Written(place, toks)
    && AfterAll(place, toks).Some? && Opens(AfterAll(place, toks).value)
    && forall i :: 0 <= i < |toks| ==> WellSpelled(toks[i])
  }

  ghost predicate IsWritten(text: string, p: nat, place: Place, toks: seq<Word>) {
    forall k {:trigger Unfold(k)} :: k == Writing && Unfold(k) ==> StandsWritten(text, p, place, toks)
  }

  lemma WrittenUnfolds(place: Place, toks: seq<Word>, next: Place)
    requires toks != [] && After(place, toks[0].kind) == Some(next)
    ensures Written(place, toks) == Lead(place, toks[0].kind) + toks[0].text + " " + Written(next, toks[1..])
    ensures AfterAll(place, toks) == AfterAll(next, toks[1..])
  {
  }

  /** The first of the written tokens stands in the text behind its lead, and the others are written after it. */
  lemma FirstStands(text: string, p: nat, place: Place, toks: seq<Word>) returns (q: nat, next: Place)
    requires toks != [] && IsWritten(text, p, place, toks)
    ensures WordAt(text, p, place, toks[0], q, next) && IsWritten(text, q, next, toks[1..])
  {
    q, next := FirstSplit(text, p, place, toks);
    assert Unfold(Writing);
  }

  lemma FirstSplit(text: string, p: nat, place: Place, toks: seq<Word>) returns (q: nat, next: Place)
    requires toks != [] && IsWritten(text, p, place, toks)
    ensures WordStands(text, p, place, toks[0], q, next) && StandsWritten(text, q, next, toks[1..])
  {
    assert Unfold(Writing);
    next := After(place, toks[0].kind).value;
    q := p + |Lead(place, toks[0].kind)| + |toks[0].text| + 1;
    WrittenUnfolds(place, toks, next);
    Pieces(text, p, Lead(place, toks[0].kind), toks[0].text, Written(next, toks[1..]));
  }

  lemma ItemsUnfold(toks: seq<Word>)
    requires toks != []
    ensures ItemsFor(toks) == [ItemOf(toks[0])] + ItemsFor(toks[1..])
  {
  }

  lemma NothingLeft(text: string, p: nat, place: Place)
    requires IsWritten(text, p, place, [])
    ensures ReadsAs(text, ModeAt(place), p, [EndItem])
  {
    assert Unfold(Writing);
    EndIsRead(text, place);
    assert p == |text|;
  }

  lemma {:induction false} WrittenIsRead(text: string, p: nat, place: Place, toks: seq<Word>)
    requires IsWritten(text, p, place, toks)
    ensures ReadsAs(text, ModeAt(place), p, ItemsFor(toks))
    decreases |toks|
  {
    if toks == [] {
      NothingLeft(text, p, place);
    } else {
      var q, next := FirstStands(text, p, place, toks);
      WrittenIsRead(text, q, next, toks[1..]);
      ItemsUnfold(toks);
      WordIsRead(text, p, place, toks[0], q, next, ItemsFor(toks[1..]));
    }
  }

  lemma EndIsRead(text: string, place: Place)
    requires Opens(place)
    ensures ReadsAs(text, ModeAt(place), |text|, [EndItem])
  {
  }

  lemma Pieces(text: string, p: nat, lead: string, word: string, tail: string)
    requires p <= |text| && text[p..] == lead + word + " " + tail
    ensures p + |lead| + |word| < |text| && text[p..p + |lead|] == lead
    ensures StandsAt(text, p + |lead|, word) && text[p + |lead| + |word| + 1..] == tail
  {
    var rest, q := text[p..], |lead| + |word|;
    assert rest[..|lead|] == lead && rest[|lead|..q] == word && rest[q] == ' ' && rest[q + 1..] == tail;
    assert rest[..|lead|] == text[p..p + |lead|];
    assert rest[|lead|..q] == text[p + |lead|..p + q];
    assert rest[q + 1..] == text[p + q + 1..];
  }

  lemma TokenStays(w: Word, items: seq<Item>)
    requires Terminal(w.kind)
    ensures Tokens([ItemOf(w)] + items) == [w] + Tokens(items) && LexFails([ItemOf(w)] + items) == LexFails(items)
  {
    assert ([ItemOf(w)] + items)[1..] == items;
  }

  lemma {:induction false} TokensOfWords(toks: seq<Word>)
    requires forall i :: 0 <= i < |toks| ==> Terminal(toks[i].kind)
    ensures Tokens(ItemsFor(toks)) == toks && !LexFails(ItemsFor(toks))
  {
    if toks != [] {
      TokensOfWords(toks[1..]);
      TokenStays(toks[0], ItemsFor(toks[1..]));
      assert toks == [toks[0]] + toks[1..];
    }
  }

  lemma {:induction false} LeavesAreTerminal(t: Tree)
    requires Toml.Derives(t)
    ensures forall i :: 0 <= i < |Yield(t)| ==> Terminal(Yield(t)[i].kind)
    decreases t, 1, 0
  {
    if t.Node? {
      KidLeavesAreTerminal(t, |t.kids|);
      assert t.kids[..|t.kids|] == t.kids;
    }
  }

  lemma {:induction false} KidLeavesAreTerminal(t: Tree, n: nat)
    requires Toml.Derives(t) && t.Node? && n <= |t.kids|
    ensures forall i :: 0 <= i < |YieldAll(t.kids[..n])| ==> Terminal(YieldAll(t.kids[..n])[i].kind)
    decreases t, 0, n
  {
    if n > 0 {
      KidLeavesAreTerminal(t, n - 1);
      LeavesAreTerminal(t.kids[n - 1]);
      OneMoreKid(t.kids, n);
    }
  }

  /** A document of the grammar whose tokens are spelled right is written as a text that has exactly its tokens. */
  lemma DocumentIsRead(t: Tree)
    requires Toml.Document(t) && forall i :: 0 <= i < |Yield(t)| ==> Spelled(Yield(t)[i])
    ensures var items := L.ItemsOf(TextOf(t)); !LexFails(items) && Tokens(items) == Yield(t)
  {
    var text, toks := TextOf(t), Yield(t);
    var place := TreeLeads(t, OnNewLine);
    assert text[0..] == text;
    WrittenIsRead(text, 0, OnNewLine, toks);
    assert Unfold(Read);
    LeavesAreTerminal(t);
    TokensOfWords(toks);
  }

  /** Reading a written document gives its meaning, or fails exactly when it has none. */
  method ReadWritten(lits: Literals, t: Tree) returns (r: Option<Fields>)
    requires Toml.Document(t) && forall i :: 0 <= i < |Yield(t)| ==> Spelled(Yield(t)[i])
    ensures r.Some? <==> Eval(lits, t).Some?
    ensures r.Some? ==> Eval(lits, t) == Some(SDocument(r.value))
  {
    DocumentIsRead(t);
    r := Parse(lits, TextOf(t));
    forall u | DocumentOf(Toml, Yield(t), u) ensures u == t {
      TomlCoherent();
      Unambiguous(Toml, t, u);
    }
    assert DocumentOf(Toml, Yield(t), t);
  }
}
