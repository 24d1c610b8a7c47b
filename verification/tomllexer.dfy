/** Items of the lexer and their types: 0 at the end of input, or one of the token constants. */
module TomlItems {
  datatype Item = Item(typ: int, val: string)

  const ItemEof: int := 0
  const ItemError: int := 57346
  const ItemBool: int := 57347
  const ItemKey: int := 57348
  const ItemLeftBracket: int := 57349
  const ItemLeftDoubleBracket: int := 57350
  const ItemRightBracket: int := 57351
  const ItemRightDoubleBracket: int := 57352
  const ItemComma: int := 57353
  const ItemEqual: int := 57354
  const ItemNumber: int := 57355
  const ItemString: int := 57356
}

/** The TOML lexer: state functions over the runes of the input. Positions count runes. */
module TomlLexer {
  import opened Base
  import opened TomlItems

  const Eof: char := '\0'
  const Digits: set<char> := {'0', '1', '2', '3', '4', '5', '6', '7', '8', '9'}

  predicate IsAlphaNumeric(r: char) {
    ('a' <= r <= 'z') || ('A' <= r <= 'Z') || ('0' <= r <= '9') || r == '-' || r == '_'
  }

  predicate IsDigit(r: char) {
    '0' <= r <= '9'
  }

  /* ---- what may stand between tokens ---- */

  /** Where a comment ends: after the newline, or a NUL, or at the end of the input. */
  function CommentEnd(input: string, i: nat): (r: nat)
    requires i <= |input|
    ensures i <= r <= |input| && (r == i ==> i == |input|)
    decreases |input| - i
  {
    if i == |input| then i
    else if input[i] == '\n' || input[i] == Eof then i + 1
    else CommentEnd(input, i + 1)
  }

  /** From a to b there are only blanks, newlines and whole comments, and at most one dot where one is allowed. */
  predicate Gap(input: string, a: nat, b: nat, dot: bool)
    requires b <= |input|
    decreases b - a
  {
    a == b || (a < b && (
      (input[a] in {' ', '\t', '\n'} && Gap(input, a + 1, b, dot))
      || (dot && input[a] == '.' && Gap(input, a + 1, b, false))
      || (input[a] == '#' && CommentEnd(input, a + 1) <= b && Gap(input, CommentEnd(input, a + 1), b, dot))))
  }

  lemma {:induction false} GapOn(input: string, a: nat, m: nat, b: nat, dot: bool, more: bool)
    requires m <= b <= |input| && Gap(input, a, m, dot) && Gap(input, m, b, more) && !(dot && more)
    ensures Gap(input, a, b, dot || more)
    decreases m - a
  {
    if a == m {
      GapAllows(input, a, b, more, dot || more);
    } else if input[a] in {' ', '\t', '\n'} {
      GapOn(input, a + 1, m, b, dot, more);
    } else if input[a] == '.' {
      GapOn(input, a + 1, m, b, false, more);
    } else {
      GapOn(input, CommentEnd(input, a + 1), m, b, dot, more);
    }
  }

  lemma {:induction false} GapAllows(input: string, a: nat, b: nat, dot: bool, more: bool)
    requires b <= |input| && Gap(input, a, b, dot) && (dot ==> more)
    ensures Gap(input, a, b, more)
    decreases b - a
  {
    if a < b && input[a] in {' ', '\t', '\n'} {
      GapAllows(input, a + 1, b, dot, more);
    } else if a < b && input[a] == '#' {
      GapAllows(input, CommentEnd(input, a + 1), b, dot, more);
    }
  }

  /** The last items are an opening bracket and the keys after it, as in a table name. */
  predicate InName(items: seq<Item>) {
    items != [] && (
      var last := items[|items| - 1].typ;
      last == ItemLeftBracket || last == ItemLeftDoubleBracket || (last == ItemKey && InName(items[..|items| - 1])))
  }

  /** A dot may follow only a key of a table name. */
  predicate DotAllowed(items: seq<Item>) {
    items != [] && items[|items| - 1].typ == ItemKey && InName(items)
  }

  lemma NameGrows(items: seq<Item>, item: Item)
    ensures item.typ == ItemLeftBracket || item.typ == ItemLeftDoubleBracket ==> InName(items + [item])
    ensures item.typ == ItemKey && InName(items) ==> InName(items + [item]) && DotAllowed(items + [item])
  {
    assert (items + [item])[..|items|] == items;
  }

  /** Where the last token ends. */
  function LastEnd(spans: seq<(nat, nat)>): nat {
    if spans == [] then 0 else spans[|spans| - 1].1
  }

  /** The spans are in order and apart, and only gaps lie between them and before upto. */
  predicate Covered(input: string, items: seq<Item>, spans: seq<(nat, nat)>, upto: nat) {
    && |items| == |spans| && LastEnd(spans) <= upto <= |input|
    && Gap(input, LastEnd(spans), upto, DotAllowed(items))
    && (spans != [] ==>
          var (a, b) := spans[|spans| - 1];
          a < b && Covered(input, items[..|spans| - 1], spans[..|spans| - 1], a))
  }

  lemma CoveredToken(input: string, items: seq<Item>, spans: seq<(nat, nat)>, item: Item, a: nat, b: nat)
    requires Covered(input, items, spans, a) && a < b <= |input|
    ensures Covered(input, items + [item], spans + [(a, b)], b)
  {
    assert (spans + [(a, b)])[..|spans|] == spans && (items + [item])[..|spans|] == items;
  }

  /* ---- what tokens look like ---- */

  /** The number of backslashes right before position i, from position a on, is even. */
  predicate EvenSlashes(input: string, a: nat, i: nat)
    requires a <= i <= |input|
    decreases i
  {
    i == a || input[i - 1] != '\\' || (i - 1 > a && input[i - 2] == '\\' && EvenSlashes(input, a, i - 2))
  }

  /** A quote at i that no backslash escapes, in a string whose text starts at a. */
  predicate Closes(input: string, a: nat, i: nat)
    requires a <= i < |input|
  {
    input[i] == '"' && EvenSlashes(input, a, i)
  }

  /** After a backslash that nothing escapes, the next rune is escaped and the one after it is not. */
  lemma EscapedPair(input: string, a: nat, i: nat)
    requires a <= i && i + 2 <= |input| && EvenSlashes(input, a, i) && input[i] == '\\'
    ensures EvenSlashes(input, a, i + 2) && !EvenSlashes(input, a, i + 1)
    ensures !Closes(input, a, i) && !Closes(input, a, i + 1)
  {
    NotBothEven(input, a, i);
  }

  lemma {:induction false} NotBothEven(input: string, a: nat, i: nat)
    requires a <= i < |input| && EvenSlashes(input, a, i) && input[i] == '\\'
    ensures !EvenSlashes(input, a, i + 1)
    decreases i
  {
    if i > a && input[i - 1] == '\\' {
      if i - 1 > a && EvenSlashes(input, a, i - 1) {
        NotBothEven(input, a, i - 2);
      }
    }
  }

  /** From the opening quote to the first unescaped one, on one line. */
  predicate IsString(input: string, a: nat, b: nat) {
    && a + 2 <= b <= |input| && input[a] == '"' && Closes(input, a + 1, b - 1)
    && forall i :: a + 1 <= i < b - 1 ==> !Closes(input, a + 1, i) && input[i] != '\n' && input[i] != Eof
  }

  /**
   * No quote closes before i, and there the text ends, or a line or NUL comes within two runes: the string is never
   * closed.
   */
  lemma Unclosed(input: string, quote: nat, text: nat, i: nat, pos: nat)
    requires quote + 1 == text <= i <= pos <= |input| && (i < pos ==> input[i] != '"')
    requires forall k :: text <= k < i ==> !Closes(input, text, k)
    requires if pos <= i + 1 && pos == |input| then true
      else i < pos <= i + 2 && (input[pos - 1] == '\n' || input[pos - 1] == Eof)
    ensures forall b: nat :: !IsString(input, quote, b)
  {
  }

  predicate AllIn(input: string, a: nat, b: nat, valid: set<char>)
    requires b <= |input|
  {
    forall i :: a <= i < b ==> input[i] in valid
  }

  /** Nothing at i would go on with a word. */
  predicate WordEnds(input: string, i: nat)
    requires i <= |input|
  {
    i == |input| || !IsAlphaNumeric(input[i])
  }

  function AfterSign(input: string, i: nat): (r: nat)
    requires i <= |input|
    ensures i <= r <= |input|
  {
    if i < |input| && input[i] in {'+', '-'} then i + 1 else i
  }

  /** A sign and digits to whole, a dot and digits to frac, an exponent to b; every part may be missing. */
  predicate IsNumber(input: string, a: nat, whole: nat, frac: nat, b: nat)
    requires a <= whole <= frac <= b <= |input|
  {
    && AfterSign(input, a) <= whole && AllIn(input, AfterSign(input, a), whole, Digits)
    && (whole < frac ==> input[whole] == '.' && AllIn(input, whole + 1, frac, Digits))
    && (frac < b ==>
          input[frac] in {'e', 'E'} && AfterSign(input, frac + 1) <= b &&
              AllIn(input, AfterSign(input, frac + 1), b, Digits))
  }

  predicate Shape(input: string, typ: int, a: nat, b: nat) {
    && a < b <= |input|
    && var val := input[a..b];
      || (typ == ItemBool && (val == "true" || val == "false"))
      || (typ == ItemKey && WordEnds(input, b) && forall i :: a <= i < b ==> IsAlphaNumeric(input[i]))
      || (typ == ItemLeftBracket && val == "[") || (typ == ItemLeftDoubleBracket && val == "[[")
      || (typ == ItemRightBracket && val == "]") || (typ == ItemRightDoubleBracket && val == "]]")
      || (typ == ItemComma && val == ",") || (typ == ItemEqual && val == "=")
      || (typ == ItemNumber && WordEnds(input, b) && (input[a] in {'+', '-'} || IsDigit(input[a])) &&
          exists w, f :: a <= w <= f <= b && IsNumber(input, a, w, f, b))
      || (typ == ItemString && IsString(input, a, b))
  }

  predicate TokenOk(input: string, item: Item, span: (nat, nat)) {
    Shape(input, item.typ, span.0, span.1) && item.val == input[span.0..span.1]
  }

  /** Tokens that are in-order slices of the input, with only gaps between them. */
  predicate Lexed(input: string, items: seq<Item>, spans: seq<(nat, nat)>, upto: nat) {
    Covered(input, items, spans, upto) && forall i :: 0 <= i < |items| ==> TokenOk(input, items[i], spans[i])
  }

  /** The whole output: tokens up to a place, then an error, or the end of input at that place. */
  predicate Finished(input: string, items: seq<Item>, spans: seq<(nat, nat)>, upto: nat) {
    && |items| == |spans| + 1 && Lexed(input, items[..|spans|], spans, upto)
    && var last := items[|spans|];
      last.typ == ItemError || (last.typ == ItemEof && (upto == |input| || input[upto] == Eof))
  }

  lemma LexedOn(input: string, items: seq<Item>, spans: seq<(nat, nat)>, upto: nat, more: nat)
    requires Lexed(input, items, spans, upto) && upto <= more <= |input| && Gap(input, upto, more, false)
    ensures Lexed(input, items, spans, more)
  {
    GapOn(input, LastEnd(spans), upto, more, DotAllowed(items), false);
  }

  /** After a key of a table name, blanks and a dot. */
  lemma LexedDot(input: string, items: seq<Item>, spans: seq<(nat, nat)>, upto: nat)
    requires Lexed(input, items, spans, upto) && DotAllowed(items) && Gap(input, LastEnd(spans), upto, false)
    requires upto < |input| && input[upto] == '.'
    ensures Lexed(input, items, spans, upto + 1)
  {
    GapOn(input, LastEnd(spans), upto, upto + 1, false, true);
  }

  lemma CommentIsGap(input: string, i: nat)
    requires i < |input| && input[i] == '#'
    ensures Gap(input, i, CommentEnd(input, i + 1), false)
  {
  }

  /* ---- the tokens of a text, one at a time ---- */

  /** What the lexer is in the middle of, between two tokens. */
  datatype Mode = InBody | NameStart(double: bool) | NameEnd(double: bool) | AfterKey | InValue

  /**
   * What stands at a place: a token, something that is left out, the end of the text, or nothing that may stand
   * there.
   */
  datatype Found = Token(typ: int, end: nat, next: Mode) | Blank(end: nat, next: Mode) | TextEnd | Bad

  predicate ReadsOn(input: string, i: nat, r: Found) {
    match r
    case Token(_, end, _) => i < end <= |input|
    case Blank(end, _) => i < end <= |input|
    case _ => true
  }

  predicate AtEnd(input: string, i: nat)
    requires i <= |input|
  {
    i == |input| || input[i] == Eof
  }

  /** The end of the letters, digits and dashes from i on. */
  function WordEnd(input: string, i: nat): (r: nat)
    requires i <= |input|
    ensures i <= r <= |input| && WordEnds(input, r) && forall k :: i <= k < r ==> IsAlphaNumeric(input[k])
    decreases |input| - i
  {
    if i < |input| && IsAlphaNumeric(input[i]) then WordEnd(input, i + 1) else i
  }

  /** The end of the runes of a kind from i on. */
  function RunEnd(input: string, i: nat, valid: set<char>): (r: nat)
    requires i <= |input|
    ensures i <= r <= |input| && AllIn(input, i, r, valid) && (r == |input| || input[r] !in valid)
    decreases |input| - i
  {
    if i < |input| && input[i] in valid then RunEnd(input, i + 1, valid) else i
  }

  function WholeEnd(input: string, i: nat): (r: nat)
    requires i <= |input|
    ensures i <= r <= |input|
  {
    RunEnd(input, AfterSign(input, i), Digits)
  }

  function FracEnd(input: string, i: nat): (r: nat)
    requires i <= |input|
    ensures WholeEnd(input, i) <= r <= |input|
  {
    var whole := WholeEnd(input, i);
    if whole < |input| && input[whole] == '.' then RunEnd(input, whole + 1, Digits) else whole
  }

  function ExponentEnd(input: string, i: nat): (r: nat)
    requires i <= |input|
    ensures i <= r <= |input|
  {
    if i < |input| && input[i] in {'e', 'E'} then RunEnd(input, AfterSign(input, i + 1), Digits) else i
  }

  /** The longest number from i on. */
  function NumberEnd(input: string, i: nat): (r: nat)
    requires i <= |input|
    ensures FracEnd(input, i) <= r <= |input|
  {
    ExponentEnd(input, FracEnd(input, i))
  }

  lemma NumberForm(input: string, i: nat)
    requires i <= |input|
    ensures IsNumber(input, i, WholeEnd(input, i), FracEnd(input, i), NumberEnd(input, i))
  {
  }

  /** The end of the string that starts at i, if it is closed. */
  ghost function StringEnd(input: string, i: nat): (r: Option<nat>)
    ensures r.Some? ==> IsString(input, i, r.value)
  {
    if exists b: nat :: IsString(input, i, b) then
      var b: nat :| IsString(input, i, b);
      Some(b)
    else None
  }

  lemma StringEndsOnce(input: string, i: nat, b: nat)
    requires IsString(input, i, b)
    ensures StringEnd(input, i) == Some(b)
  {
  }

  predicate Spells(input: string, i: nat, word: string) {
    i + |word| <= |input| && input[i..i + |word|] == word
  }

  function PunctuationType(r: char): int {
    match r
    case '[' => ItemLeftBracket
    case ']' => ItemRightBracket
    case ',' => ItemComma
    case _ => ItemEqual
  }

  function BodyNext(input: string, i: nat): (r: Found)
    requires i <= |input|
    ensures ReadsOn(input, i, r)
  {
    if i == |input| then TextEnd
    else if input[i] in {' ', '\t', '\n'} then Blank(i + 1, InBody)
    else if input[i] == '#' then Blank(CommentEnd(input, i + 1), InBody)
    else if Spells(input, i, "[[") then Token(ItemLeftDoubleBracket, i + 2, NameStart(true))
    else if input[i] == '[' then Token(ItemLeftBracket, i + 1, NameStart(false))
    else if IsAlphaNumeric(input[i]) then Token(ItemKey, WordEnd(input, i), AfterKey)
    else Bad
  }

  function NameStartNext(input: string, i: nat, double: bool): (r: Found)
    requires i <= |input|
    ensures ReadsOn(input, i, r)
  {
    if i == |input| then Bad
    else if input[i] in {' ', '\t'} then Blank(i + 1, NameStart(double))
    else if IsAlphaNumeric(input[i]) then Token(ItemKey, WordEnd(input, i), NameEnd(double))
    else Bad
  }

  function NameEndNext(input: string, i: nat, double: bool): (r: Found)
    requires i <= |input|
    ensures ReadsOn(input, i, r)
  {
    if i == |input| then Bad
    else if input[i] in {' ', '\t'} then Blank(i + 1, NameEnd(double))
    else if input[i] == '.' then Blank(i + 1, NameStart(double))
    else if double && Spells(input, i, "]]") then Token(ItemRightDoubleBracket, i + 2, InBody)
    else if !double && input[i] == ']' then Token(ItemRightBracket, i + 1, InBody)
    else Bad
  }

  function AfterKeyNext(input: string, i: nat): (r: Found)
    requires i <= |input|
    ensures ReadsOn(input, i, r)
  {
    if i == |input| then Bad
    else if input[i] in {' ', '\t'} then Blank(i + 1, AfterKey)
    else if input[i] == '=' then Token(ItemEqual, i + 1, InValue)
    else Bad
  }

  ghost function ValueNext(input: string, i: nat): (r: Found)
    requires i <= |input|
    ensures ReadsOn(input, i, r)
  {
    if AtEnd(input, i) then TextEnd
    else if input[i] in {' ', '\t'} then Blank(i + 1, InValue)
    else if input[i] == '\n' then Blank(i + 1, InBody)
    else if input[i] == '#' then Blank(CommentEnd(input, i + 1), InBody)
    else if input[i] in {'[', ']', ',', '='} then Token(PunctuationType(input[i]), i + 1, InValue)
    else if input[i] == '"' then
      match StringEnd(input, i)
      case Some(end) => Token(ItemString, end, InValue)
      case None => Bad
    else if input[i] in {'+', '-'} || IsDigit(input[i]) then
      if WordEnds(input, NumberEnd(input, i)) then Token(ItemNumber, NumberEnd(input, i), InValue) else Bad
    else if Spells(input, i, "true") then Token(ItemBool, i + 4, InValue)
    else if Spells(input, i, "false") then Token(ItemBool, i + 5, InValue)
    else if IsAlphaNumeric(input[i]) then Token(ItemKey, WordEnd(input, i), AfterKey)
    else Bad
  }

  ghost function Reads(input: string, mode: Mode, i: nat): (r: Found)
    requires i <= |input|
    ensures ReadsOn(input, i, r)
  {
    match mode
    case InBody => BodyNext(input, i)
    case NameStart(double) => NameStartNext(input, i, double)
    case NameEnd(double) => NameEndNext(input, i, double)
    case AfterKey => AfterKeyNext(input, i)
    case InValue => ValueNext(input, i)
  }

  lemma NumberToken(input: string, i: nat)
    requires i < |input| && (input[i] in {'+', '-'} || IsDigit(input[i]))
    ensures Reads(input, InValue, i) ==
      if WordEnds(input, NumberEnd(input, i)) then Token(ItemNumber, NumberEnd(input, i), InValue) else Bad
  {
  }

  /** The tokens from i on, and the error or end of input after them. */
  ghost function Items(input: string, mode: Mode, i: nat): (r: seq<Item>)
    requires i <= |input|
    ensures r != []
    decreases |input| - i
  {
    match Reads(input, mode, i)
    case Token(typ, end, next) => [Item(typ, input[i..end])] + Items(input, next, end)
    case Blank(end, next) => Items(input, next, end)
    case TextEnd => [Item(ItemEof, if i < |input| then input[i..i + 1] else "")]
    case Bad => [Item(ItemError, "error")]
  }

  lemma TokenItems(input: string, mode: Mode, i: nat, typ: int, end: nat, next: Mode)
    requires i <= |input| && Reads(input, mode, i) == Token(typ, end, next)
    ensures i <= end <= |input| && Items(input, mode, i) == [Item(typ, input[i..end])] + Items(input, next, end)
  {
  }

  /** All items of a text. */
  ghost function ItemsOf(input: string): seq<Item> {
    Items(input, InBody, 0)
  }

  /* ---- the tokens cover the text ---- */

  /** What is known of the tokens so far in the middle of a table name. */
  ghost predicate Placed(input: string, mode: Mode, items: seq<Item>, spans: seq<(nat, nat)>, i: nat) {
    && Lexed(input, items, spans, i)
    && (mode.NameStart? ==> InName(items))
    && (mode.NameEnd? ==> DotAllowed(items) && Gap(input, LastEnd(spans), i, false))
  }

  ghost predicate Situated(input: string, mode: Mode, items: seq<Item>, spans: seq<(nat, nat)>, i: nat) {
    forall k {:trigger Unfold(k)} :: Unfold(k) ==> Placed(input, mode, items, spans, i)
  }

  lemma NumberShape(input: string, i: nat)
    requires i < |input| && (input[i] in {'+', '-'} || IsDigit(input[i])) && WordEnds(input, NumberEnd(input, i))
    ensures i < NumberEnd(input, i) && Shape(input, ItemNumber, i, NumberEnd(input, i))
  {
    NumberForm(input, i);
    assert IsNumber(input, i, WholeEnd(input, i), FracEnd(input, i), NumberEnd(input, i));
  }

  lemma ValueShape(input: string, i: nat)
    requires i <= |input| && ValueNext(input, i).Token?
    ensures Shape(input, ValueNext(input, i).typ, i, ValueNext(input, i).end)
  {
    if input[i] in {'+', '-'} || IsDigit(input[i]) {
      NumberShape(input, i);
    } else if input[i] in {'[', ']', ',', '='} {
      assert input[i..i + 1] == [input[i]];
    }
  }

  lemma TokenShape(input: string, mode: Mode, i: nat)
    requires i <= |input| && Reads(input, mode, i).Token?
    ensures var t := Reads(input, mode, i); Shape(input, t.typ, i, t.end)
  {
    var t := Reads(input, mode, i);
    if mode == InValue {
      ValueShape(input, i);
    } else if t.end == i + 1 {
      assert input[i..t.end] == [input[i]];
    }
  }

  /* ---- where the lexer fails ---- */

  /** The types of the tokens that may come next. */
  predicate Takes(mode: Mode, typ: int) {
    match mode
    case InBody => typ == ItemKey || typ == ItemLeftBracket || typ == ItemLeftDoubleBracket
    case NameStart(_) => typ == ItemKey
    case NameEnd(double) => typ == if double then ItemRightDoubleBracket else ItemRightBracket
    case AfterKey => typ == ItemEqual
    case InValue =>
      || typ == ItemBool || typ == ItemKey || typ == ItemNumber || typ == ItemString
      || typ == ItemLeftBracket || typ == ItemRightBracket || typ == ItemComma || typ == ItemEqual
  }

  /**
   * A token that may come next stands here. A value that starts like a number has to be the longest number there is,
   * and is no key.
   */
  predicate Stands(input: string, mode: Mode, typ: int, i: nat, end: nat) {
    && Takes(mode, typ) && Shape(input, typ, i, end)
    && (mode == InValue && (input[i] in {'+', '-'} || IsDigit(input[i])) ==>
        typ == ItemNumber && end == NumberEnd(input, i))
  }

  /** Something that is left out stands here. */
  predicate BlankStands(input: string, mode: Mode, i: nat)
    requires i <= |input|
  {
    i < |input| && (
      || input[i] in {' ', '\t'}
      || (mode in {InBody, InValue} && input[i] in {'\n', '#'})
      || (mode.NameEnd? && input[i] == '.'))
  }

  /** The text may end here; in the middle of a value a NUL ends it too. */
  predicate MayEnd(input: string, mode: Mode, i: nat)
    requires i <= |input|
  {
    (mode == InBody && i == |input|) || (mode == InValue && AtEnd(input, i))
  }

  /** The lexer fails exactly where no token that may come next stands, nothing that is left out, and not the end. */
  lemma BadIff(input: string, mode: Mode, i: nat)
    requires i <= |input|
    ensures Reads(input, mode, i) == Bad <==>
      !MayEnd(input, mode, i) && !BlankStands(input, mode, i) &&
          forall typ, end: nat :: !Stands(input, mode, typ, i, end)
  {
    var r := Reads(input, mode, i);
    if r.Token? {
      TokenShape(input, mode, i);
      assert Stands(input, mode, r.typ, i, r.end);
    }
    forall typ, end: nat | Stands(input, mode, typ, i, end) ensures r != Bad {
      SomethingStands(input, mode, typ, i, end);
    }
  }

  lemma SomethingStands(input: string, mode: Mode, typ: int, i: nat, end: nat)
    requires Stands(input, mode, typ, i, end)
    ensures Reads(input, mode, i) != Bad
  {
    assert input[i..end][0] == input[i];
    if typ == ItemString {
      StringEndsOnce(input, i, end);
    } else if typ == ItemBool {
      assert Spells(input, i, "true") || Spells(input, i, "false");
    } else if typ == ItemLeftDoubleBracket || typ == ItemRightDoubleBracket {
      assert input[i..end][1] == input[i + 1];
    }
  }

  /** The types of the tokens that lead into a table name, and on in it. */
  lemma NameTokens(input: string, mode: Mode, i: nat)
    requires i <= |input| && Reads(input, mode, i).Token?
    ensures var t := Reads(input, mode, i);
      && (t.next.NameStart? ==> t.typ == ItemLeftBracket || t.typ == ItemLeftDoubleBracket)
      && (t.next.NameEnd? ==> t.typ == ItemKey && mode.NameStart?)
  {
  }

  lemma SituatedToken(input: string, mode: Mode, items: seq<Item>, spans: seq<(nat, nat)>, i: nat)
    requires i <= |input| && Situated(input, mode, items, spans, i) && Reads(input, mode, i).Token?
    ensures var t := Reads(input, mode, i);
      Situated(input, t.next, items + [Item(t.typ, input[i..t.end])], spans + [(i, t.end)], t.end)
  {
    assert Unfold(0);
    var t := Reads(input, mode, i);
    var item := Item(t.typ, input[i..t.end]);
    TokenShape(input, mode, i);
    NameTokens(input, mode, i);
    LexedToken(input, items, spans, item, i, t.end);
    NameGrows(items, item);
  }

  lemma LexedToken(input: string, items: seq<Item>, spans: seq<(nat, nat)>, item: Item, i: nat, end: nat)
    requires Lexed(input, items, spans, i) && i < end <= |input| && TokenOk(input, item, (i, end))
    ensures Lexed(input, items + [item], spans + [(i, end)], end)
    ensures LastEnd(spans + [(i, end)]) == end
  {
    CoveredToken(input, items, spans, item, i, end);
  }

  lemma SituatedBlank(input: string, mode: Mode, items: seq<Item>, spans: seq<(nat, nat)>, i: nat)
    requires i <= |input| && Situated(input, mode, items, spans, i) && Reads(input, mode, i).Blank?
    ensures var t := Reads(input, mode, i); Situated(input, t.next, items, spans, t.end)
  {
    assert Unfold(0);
    var t := Reads(input, mode, i);
    if mode.NameEnd? && input[i] == '.' {
      LexedDot(input, items, spans, i);
    } else {
      BlankIsGap(input, mode, i);
      LexedOn(input, items, spans, i, t.end);
      if mode.NameEnd? {
        GapOn(input, LastEnd(spans), i, t.end, false, false);
      }
    }
  }

  lemma BlankIsGap(input: string, mode: Mode, i: nat)
    requires i <= |input| && Reads(input, mode, i).Blank? && !(mode.NameEnd? && input[i] == '.')
    ensures Gap(input, i, Reads(input, mode, i).end, false)
  {
    if input[i] == '#' {
      CommentIsGap(input, i);
    } else {
      assert Gap(input, i + 1, i + 1, false);
    }
  }

  ghost predicate Covers(input: string, items: seq<Item>, spans: seq<(nat, nat)>, upto: nat) {
    Finished(input, items, spans, upto) && (items[|spans|].typ == ItemEof ==> AtEnd(input, upto))
  }

  ghost predicate Covering(input: string, items: seq<Item>, spans: seq<(nat, nat)>, upto: nat) {
    forall k {:trigger Unfold(k)} :: Unfold(k) ==> Covers(input, items, spans, upto)
  }

  lemma CoverEnds(input: string, mode: Mode, items: seq<Item>, spans: seq<(nat, nat)>, i: nat)
    requires i <= |input| && Situated(input, mode, items, spans, i)
    requires !Reads(input, mode, i).Token? && !Reads(input, mode, i).Blank?
    ensures Covering(input, items + Items(input, mode, i), spans, i)
  {
    assert Unfold(0);
    if Reads(input, mode, i) == TextEnd {
      EndsAtEnd(input, mode, i);
    }
    assert (items + Items(input, mode, i))[..|spans|] == items;
  }

  lemma EndsAtEnd(input: string, mode: Mode, i: nat)
    requires i <= |input| && Reads(input, mode, i) == TextEnd
    ensures AtEnd(input, i)
  {
  }

  lemma ItemsOn(input: string, mode: Mode, items: seq<Item>, i: nat)
    requires i <= |input|
    ensures var r := Reads(input, mode, i);
      && (r.Token? ==>
          items + Items(input, mode, i) == items + [Item(r.typ, input[i..r.end])] + Items(input, r.next, r.end))
      && (r.Blank? ==> Items(input, mode, i) == Items(input, r.next, r.end))
  {
  }

  /** From any place on, the tokens are in-order slices of the text with only gaps between them. */
  lemma {:induction false} CoverFrom(input: string, mode: Mode, items: seq<Item>, spans: seq<(nat, nat)>, i: nat)
    returns (all: seq<(nat, nat)>, upto: nat)
    requires i <= |input| && Situated(input, mode, items, spans, i)
    ensures Covering(input, items + Items(input, mode, i), all, upto)
    decreases |input| - i
  {
    ItemsOn(input, mode, items, i);
    var r := Reads(input, mode, i);
    if r.Token? {
      SituatedToken(input, mode, items, spans, i);
      all, upto := CoverFrom(input, r.next, items + [Item(r.typ, input[i..r.end])], spans + [(i, r.end)], r.end);
    } else if r.Blank? {
      SituatedBlank(input, mode, items, spans, i);
      all, upto := CoverFrom(input, r.next, items, spans, r.end);
    } else {
      all, upto := spans, i;
      CoverEnds(input, mode, items, spans, i);
    }
  }

  /**
   * The tokens of a text are disjoint slices of it in order, each of its type's form, with only blanks,
   * newlines and comments between them, and one dot at most after a key of a table name; a NUL-free text
   * whose last item is not an error is covered to its end.
   */
  lemma TokensCover(input: string) returns (spans: seq<(nat, nat)>, upto: nat)
    ensures Finished(input, ItemsOf(input), spans, upto)
    ensures ItemsOf(input)[|spans|].typ == ItemEof && Eof !in input ==> upto == |input|
  {
    spans, upto := CoverFrom(input, InBody, [], [], 0);
    assert [] + ItemsOf(input) == ItemsOf(input);
    assert Unfold(0);
  }

  /* ---- the lexer ---- */

  /** The items put out so far, and those that the text has from at on, are all of its items. */
  ghost predicate Owes(input: string, items: seq<Item>, mode: Mode, at: nat) {
    at <= |input| && forall k {:trigger Unfold(k)} :: Unfold(k) ==> items + Items(input, mode, at) == ItemsOf(input)
  }

  lemma OwesToken(input: string, items: seq<Item>, mode: Mode, at: nat, typ: int, end: nat, next: Mode)
    requires Owes(input, items, mode, at) && Reads(input, mode, at) == Token(typ, end, next)
    ensures Owes(input, items + [Item(typ, input[at..end])], next, end)
  {
    assert Unfold(0);
    var item := Item(typ, input[at..end]);
    assert items + ([item] + Items(input, next, end)) == items + [item] + Items(input, next, end);
  }

  lemma OwesBlank(input: string, items: seq<Item>, mode: Mode, at: nat, end: nat, next: Mode)
    requires Owes(input, items, mode, at) && Reads(input, mode, at) == Blank(end, next)
    ensures Owes(input, items, next, end)
  {
    assert Unfold(0);
  }

  lemma OwesSame(input: string, items: seq<Item>, mode: Mode, other: Mode, at: nat)
    requires Owes(input, items, mode, at) && Reads(input, mode, at) == Reads(input, other, at)
    ensures Owes(input, items, other, at)
  {
    assert Unfold(0);
  }

  lemma OwesLast(input: string, items: seq<Item>, mode: Mode, at: nat)
    requires Owes(input, items, mode, at) && (Reads(input, mode, at) == TextEnd || Reads(input, mode, at) == Bad)
    ensures ItemsOf(input) == items + [if Reads(input, mode, at) == Bad then Item(ItemError, "error")
                                       else Item(ItemEof, if at < |input| then input[at..at + 1] else "")]
  {
    assert Unfold(0);
  }

  datatype StateFn = TableBody | Comment | TableNameStart | TableNameEnd | KeyStart | KeyEnd | Value | Quote | Number
    | Stop

  /** The states that can hand over to another one without reading anything come first. */
  function Rank(s: StateFn): nat {
    if s == TableBody || s == Value then 1 else 0
  }

  /** What the lexer is in the middle of when a state function is entered. */
  function ModeOf(s: StateFn, double: bool): Mode {
    match s
    case TableNameStart => NameStart(double)
    case TableNameEnd => NameEnd(double)
    case KeyEnd => AfterKey
    case Value => InValue
    case Quote => InValue
    case Number => InValue
    case _ => InBody
  }

  class Lexer {
    const input: string
    var pos: nat
    var start: nat
    var width: nat
    var arrayDepth: int
    var expectDoubleBracket: bool
    var items: seq<Item>

    ghost predicate Good()
      reads this
    {
      start <= pos <= |input|
    }

    ghost predicate Owed(mode: Mode)
      reads this
    {
      Owes(input, items, mode, start)
    }

    /** What each state function finds when it is entered. */
    ghost predicate Entry(s: StateFn)
      reads this
    {
      if s == Stop then items == ItemsOf(input)
      else Good() && Owed(ModeOf(s, expectDoubleBracket)) && match s
        case Comment => start + 1 == pos && input[start] == '#'
        case Quote => start + 1 == pos && input[start] == '"'
        case Number => start == pos < |input| && (input[pos] in {'+', '-'} || IsDigit(input[pos]))
        case KeyStart => start == pos < |input| && input[pos] !in {' ', '\t', '\n', '#', '['} && input[pos] != Eof
        case _ => start == pos
    }

    constructor (input: string)
      ensures Entry(TableBody) && this.input == input
    {
      this.input := input;
      pos, start, width, arrayDepth, expectDoubleBracket := 0, 0, 0, 0, false;
      items := [];
      new;
      assert [] + ItemsOf(input) == ItemsOf(input);
    }

    /** The next rune, or the end marker. */
    method Next() returns (r: char)
      requires pos <= |input|
      modifies this`pos, this`width
      ensures pos == old(pos) + width <= |input|
      ensures old(pos) == |input| ==> r == Eof && width == 0
      ensures old(pos) < |input| ==> r == input[old(pos)] && width == 1
    {
      if pos >= |input| {
        width := 0;
        return Eof;
      }
      r := input[pos];
      width := 1;
      pos := pos + 1;
    }

    method Backup()
      requires width <= pos - start
      modifies this`pos
      ensures pos == old(pos) - width
    {
      pos := pos - width;
    }

    method Peek() returns (r: char)
      requires Good()
      modifies this`pos, this`width
      ensures pos == old(pos) && r == if pos < |input| then input[pos] else Eof
    {
      r := Next();
      Backup();
    }

    method Emit(t: int, ghost mode: Mode, ghost next: Mode)
      requires Good() && Owed(mode) && Reads(input, mode, start) == Token(t, pos, next)
      modifies this`items, this`start
      ensures start == pos && Owed(next)
    {
      OwesToken(input, items, mode, start, t, pos, next);
      items := items + [Item(t, input[start..pos])];
      start := pos;
    }

    /** The end of the input, or an error, is the last item. */
    method EmitLast(t: int, ghost mode: Mode) returns (next: StateFn)
      requires Good() && Owed(mode)
      requires if t == ItemError then Reads(input, mode, start) == Bad
               else t == ItemEof && Reads(input, mode, start) == TextEnd && pos == if start < |input| then start + 1
                   else start
      modifies this`items
      ensures next == Stop && Entry(Stop)
    {
      OwesLast(input, items, mode, start);
      items := items + [Item(t, if t == ItemError then "error" else input[start..pos])];
      return Stop;
    }

    method Ignore(ghost mode: Mode, ghost next: Mode)
      requires Good() && Owed(mode) && Reads(input, mode, start) == Blank(pos, next)
      modifies this`start
      ensures start == pos && Owed(next)
    {
      OwesBlank(input, items, mode, start, pos, next);
      start := pos;
    }

    method SkipWhitespace(skipNewlines: bool, ghost mode: Mode)
      requires start == pos <= |input| && Owed(mode) && mode != InValue && (skipNewlines <==> mode == InBody)
      modifies this`pos, this`start, this`width
      ensures start == pos <= |input| && Owed(mode) && pos >= old(pos)
      ensures pos < |input| ==> input[pos] !in {' ', '\t'} && (skipNewlines ==> input[pos] != '\n')
    {
      while true
        invariant start == pos <= |input| && Owed(mode) && pos >= old(pos)
        decreases |input| - pos
      {
        var r := Next();
        if r == ' ' || r == '\t' || (skipNewlines && r == '\n') {
          Ignore(mode, mode);
        } else {
          Backup();
          return;
        }
      }
    }

    /** After a bracket that opens a table name, perhaps with a second one. */
    method LexBrackets()
      requires start + 1 == pos <= |input| && input[start] == '[' && Owed(InBody)
      modifies this
      ensures Entry(TableNameStart) && pos >= old(pos)
    {
      var p := Peek();
      if p == '[' {
        var _ := Next();
        assert input[start..pos] == "[[";
        Emit(ItemLeftDoubleBracket, InBody, NameStart(true));
        expectDoubleBracket := true;
      } else {
        Emit(ItemLeftBracket, InBody, NameStart(false));
        expectDoubleBracket := false;
      }
    }

    method LexTableBody() returns (next: StateFn)
      requires Entry(TableBody)
      modifies this
      ensures Entry(next) && pos >= old(pos) && (pos == old(pos) ==> Rank(next) == 0)
      ensures old(pos) == |input| ==> next == Stop
    {
      SkipWhitespace(true, InBody);
      var r := Next();
      if r == '#' {
        return Comment;
      } else if r == '[' {
        LexBrackets();
        return TableNameStart;
      } else if r == Eof {
        if pos > start {
          next := EmitLast(ItemError, InBody);
          return;
        }
        next := EmitLast(ItemEof, InBody);
        return;
      }
      Backup();
      return KeyStart;
    }

    method LexComment() returns (next: StateFn)
      requires Entry(Comment)
      modifies this
      ensures Entry(next) && pos >= old(pos) && (pos == old(pos) ==> next == Stop)
    {
      OwesBlank(input, items, InBody, start, CommentEnd(input, pos), InBody);
      SkipComment();
      next := LexTableBody();
    }

    /** Reads and ignores runes to the end of the comment. */
    method SkipComment()
      requires start <= pos <= |input|
      modifies this`pos, this`start, this`width
      ensures start == pos == CommentEnd(input, old(pos))
    {
      while true
        invariant pos <= |input| && CommentEnd(input, pos) == CommentEnd(input, old(pos))
        decreases |input| - pos
      {
        var r := Next();
        start := pos;
        if r == '\n' || r == Eof {
          return;
        }
      }
    }

    method LexBareKey(ghost mode: Mode, ghost next: Mode)
      requires start == pos < |input| && Owed(mode)
      requires Reads(input, mode, start) == Token(ItemKey, WordEnd(input, start), next)
      modifies this`pos, this`start, this`width, this`items
      ensures start == pos <= |input| && pos > old(pos) && Owed(next)
    {
      while true
        invariant Good() && start == old(start) && WordEnd(input, pos) == WordEnd(input, start)
        modifies this`pos, this`width
        decreases |input| - pos
      {
        var r := Next();
        if !IsAlphaNumeric(r) {
          Backup();
          break;
        }
      }
      Emit(ItemKey, mode, next);
    }

    method LexTableNameStart() returns (next: StateFn)
      requires Entry(TableNameStart)
      modifies this
      ensures Entry(next) && pos >= old(pos) && (pos == old(pos) ==> next == Stop)
    {
      ghost var mode := NameStart(expectDoubleBracket);
      SkipWhitespace(false, mode);
      var r := Peek();
      if IsAlphaNumeric(r) {
        LexBareKey(mode, NameEnd(expectDoubleBracket));
        return TableNameEnd;
      }
      next := EmitLast(ItemError, mode);
    }

    method LexTableNameEnd() returns (next: StateFn)
      requires Entry(TableNameEnd)
      modifies this
      ensures Entry(next) && pos >= old(pos) && (pos == old(pos) ==> next == Stop)
    {
      ghost var mode := NameEnd(expectDoubleBracket);
      SkipWhitespace(false, mode);
      var r := Next();
      if r == '.' {
        Ignore(mode, NameStart(expectDoubleBracket));
        return TableNameStart;
      } else if r == ']' {
        next := CloseName();
        return;
      }
      next := EmitLast(ItemError, mode);
    }

    /** The bracket that closes a table name, or the second one of a pair. */
    method CloseName() returns (next: StateFn)
      requires start + 1 == pos <= |input| && input[start] == ']' && Owed(NameEnd(expectDoubleBracket))
      modifies this
      ensures Entry(next) && pos >= old(pos)
    {
      if expectDoubleBracket {
        var rr := Next();
        if rr != ']' {
          next := EmitLast(ItemError, NameEnd(true));
          return;
        }
        assert input[start..pos] == "]]";
        Emit(ItemRightDoubleBracket, NameEnd(true), InBody);
      } else {
        Emit(ItemRightBracket, NameEnd(false), InBody);
      }
      return TableBody;
    }

    method LexKeyStart() returns (next: StateFn)
      requires Entry(KeyStart)
      modifies this
      ensures Entry(next) && pos >= old(pos) && (pos == old(pos) ==> next == Stop)
    {
      var r := Peek();
      if IsAlphaNumeric(r) {
        LexBareKey(InBody, AfterKey);
        return KeyEnd;
      }
      next := EmitLast(ItemError, InBody);
    }

    method LexKeyEnd() returns (next: StateFn)
      requires Entry(KeyEnd)
      modifies this
      ensures Entry(next) && pos >= old(pos) && (pos == old(pos) ==> next == Stop)
    {
      SkipWhitespace(false, AfterKey);
      var r := Next();
      if r == '=' {
        Emit(ItemEqual, AfterKey, InValue);
        return Value;
      }
      next := EmitLast(ItemError, AfterKey);
    }

    method TryString(s: string) returns (ok: bool)
      requires start == pos <= |input|
      modifies this`pos, this`width
      ensures ok == Spells(input, start, s) && pos == old(pos) + if ok then |s| else 0
    {
      if pos + |s| <= |input| && input[pos..pos + |s|] == s {
        pos := pos + |s|;
        width := |s|;
        return true;
      }
      return false;
    }

    method LexPunctuation(r: char)
      requires start + 1 == pos <= |input| && input[start] == r && r in {'[', ']', ',', '='} && Owed(InValue)
      modifies this
      ensures start == pos == old(pos) && Owed(InValue)
    {
      if r == '[' {
        arrayDepth := arrayDepth + 1;
        Emit(ItemLeftBracket, InValue, InValue);
      } else if r == ']' {
        arrayDepth := arrayDepth - 1;
        Emit(ItemRightBracket, InValue, InValue);
      } else if r == ',' {
        Emit(ItemComma, InValue, InValue);
      } else {
        Emit(ItemEqual, InValue, InValue);
      }
    }

    /** A boolean, where neither a number nor anything else stands. */
    method LexBool() returns (ok: bool)
      requires start == pos < |input| && Owed(InValue)
      requires input[pos] !in {' ', '\t', '\n', '#', '[', ']', ',', '=', '\"', '+', '-'}
      requires !IsDigit(input[pos]) && input[pos] != Eof
      modifies this
      ensures start == pos <= |input| && Owed(InValue) && if ok then pos > old(pos) else pos == old(pos)
      ensures !ok ==> !Spells(input, pos, "true") && !Spells(input, pos, "false")
    {
      ok := TryString("true");
      if !ok {
        ok := TryString("false");
      }
      if ok {
        Emit(ItemBool, InValue, InValue);
      }
    }

    method LexValue() returns (next: StateFn)
      requires Entry(Value)
      modifies this
      ensures Entry(next) && pos >= old(pos) && (pos == old(pos) ==> Rank(next) == 0)
    {
      while true
        invariant start == pos <= |input| && Owed(InValue) && pos >= old(pos)
        decreases |input| - pos
      {
        var r := Next();
        if r == ' ' || r == '\t' {
          Ignore(InValue, InValue);
          continue;
        } else if r in {'[', ']', ',', '='} {
          LexPunctuation(r);
          continue;
        } else if r == '"' {
          return Quote;
        } else if r == '#' {
          OwesSame(input, items, InValue, InBody, start);
          return Comment;
        } else if r == '\n' {
          Ignore(InValue, InBody);
          return TableBody;
        } else if r == Eof {
          next := EmitLast(ItemEof, InValue);
          return;
        }
        Backup();
        var again;
        again, next := LexWord(r);
        if !again {
          return;
        }
      }
    }

    /** A value that starts with none of the special runes: a boolean, or the start of a number or a key. */
    method LexWord(r: char) returns (again: bool, next: StateFn)
      requires start == pos < |input| && input[pos] == r
      requires r !in {' ', '\t', '\n', '#', '[', ']', ',', '=', '\"'} && r != Eof && Owed(InValue)
      modifies this
      ensures pos >= old(pos)
      ensures if again then start == pos <= |input| && Owed(InValue) && pos > old(pos)
        else Entry(next) && Rank(next) == 0
    {
      if r == '+' || r == '-' || IsDigit(r) {
        return false, Number;
      }
      again := LexBool();
      if again {
        return true, Value;
      }
      if IsAlphaNumeric(r) {
        OwesSame(input, items, InValue, InBody, start);
        return false, KeyStart;
      }
      next := EmitLast(ItemError, InValue);
      return false, next;
    }

    method LexQuote() returns (next: StateFn)
      requires Entry(Quote)
      modifies this
      ensures Entry(next) && pos >= old(pos) && (pos == old(pos) ==> next == Stop)
    {
      var ok := ScanQuote(start);
      if !ok {
        next := EmitLast(ItemError, InValue);
        return;
      }
      StringEndsOnce(input, start, pos);
      Emit(ItemString, InValue, InValue);
      return Value;
    }

    /**
     * Reads to the first quote that no backslash escapes; it fails exactly when a newline, a NUL or the end comes
     * before it.
     */
    method ScanQuote(ghost quote: nat) returns (ok: bool)
      requires quote + 1 == pos <= |input| && input[quote] == '"'
      modifies this`pos, this`width
      ensures old(pos) <= pos <= |input|
      ensures ok <==> exists b: nat :: IsString(input, quote, b)
      ensures ok ==> IsString(input, quote, pos)
    {
      ghost var text := pos;
      while true
        invariant text <= pos <= |input| && EvenSlashes(input, text, pos)
        invariant forall i :: text <= i < pos ==> !Closes(input, text, i) && input[i] != '\n' && input[i] != Eof
        decreases |input| - pos
      {
        ghost var from := pos;
        var r := Next();
        if r == '\\' {
          r := Next();
          if r == Eof || r == '\n' {
            Unclosed(input, quote, text, from, pos);
            return false;
          }
          EscapedPair(input, text, pos - 2);
        } else if r == Eof || r == '\n' {
          Unclosed(input, quote, text, from, pos);
          return false;
        } else if r == '"' {
          assert IsString(input, quote, pos);
          return true;
        }
      }
    }

    method Accept(valid: set<char>) returns (ok: bool)
      requires Good() && Eof !in valid
      modifies this`pos, this`width
      ensures Good() && ok == (old(pos) < |input| && input[old(pos)] in valid)
      ensures pos == old(pos) + if ok then 1 else 0
    {
      var r := Next();
      if r in valid {
        return true;
      }
      Backup();
      return false;
    }

    method AcceptRun(valid: set<char>)
      requires Good() && Eof !in valid
      modifies this`pos, this`width
      ensures Good() && pos == RunEnd(input, old(pos), valid)
    {
      while true
        invariant Good() && RunEnd(input, pos, valid) == RunEnd(input, old(pos), valid)
        decreases |input| - pos
      {
        var r := Next();
        if r !in valid {
          Backup();
          return;
        }
      }
    }

    /** Reads the longest number there is; it fails exactly when a word would go on right after it. */
    method ScanNumber() returns (ok: bool)
      requires Entry(Number)
      modifies this`pos, this`width
      ensures Good() && pos > old(pos) && (ok ==> pos == NumberEnd(input, old(pos)))
      ensures ok <==> WordEnds(input, NumberEnd(input, old(pos)))
    {
      ScanFraction();
      ScanExponent();
      var r := Peek();
      if IsAlphaNumeric(r) {
        r := Next();
        return false;
      }
      return true;
    }

    /** The sign, the digits, and the dot and the digits after it. */
    method ScanFraction()
      requires Entry(Number)
      modifies this`pos, this`width
      ensures Good() && old(pos) < pos == FracEnd(input, old(pos))
    {
      var sign := Accept({'+', '-'});
      assert !sign ==> input[pos] in Digits;
      AcceptRun(Digits);
      var dot := Accept({'.'});
      if dot {
        AcceptRun(Digits);
      }
    }

    method ScanExponent()
      requires Good()
      modifies this`pos, this`width
      ensures Good() && pos == ExponentEnd(input, old(pos))
    {
      var e := Accept({'e', 'E'});
      if e {
        var _ := Accept({'+', '-'});
        AcceptRun(Digits);
      }
    }

    method LexNumber() returns (next: StateFn)
      requires Entry(Number)
      modifies this
      ensures Entry(next) && pos >= old(pos) && (pos == old(pos) ==> next == Stop)
    {
      var ok := ScanNumber();
      NumberToken(input, start);
      if !ok {
        next := EmitLast(ItemError, InValue);
        return;
      }
      Emit(ItemNumber, InValue, InValue);
      return Value;
    }

    /** The state machine; every state function reads on, or hands over to one that does. */
    method Run(first: StateFn)
      requires Entry(first)
      modifies this
      ensures items == ItemsOf(input)
    {
      var state := first;
      while state != Stop
        invariant Entry(state)
        decreases if state == Stop then 0 else 1, |input| - pos, Rank(state)
      {
        match state {
          case TableBody => state := LexTableBody();
          case Comment => state := LexComment();
          case TableNameStart => state := LexTableNameStart();
          case TableNameEnd => state := LexTableNameEnd();
          case KeyStart => state := LexKeyStart();
          case KeyEnd => state := LexKeyEnd();
          case Value => state := LexValue();
          case Quote => state := LexQuote();
          case Number => state := LexNumber();
        }
      }
    }
  }

  /** Lexing a text gives exactly its items. */
  method Lex(input: string) returns (items: seq<Item>)
    ensures items == ItemsOf(input)
  {
    var l := new Lexer(input);
    l.Run(TableBody);
    items := l.items;
  }
}
