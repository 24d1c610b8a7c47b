/** What a TOML document means: the values the parser's actions build, as a function of the parse tree. */
module TomlValues {
  import opened Base
  import opened LRTheory
  import opened TomlGrammar

  /** A table array is never empty, so it is its earlier tables and its last. */
  datatype Value =
    | VBool(b: bool)
    | VInt(n: int)
    | VFloat(f: real)
    | VString(s: string)
    | VArray(elems: seq<Value>)
    | VTable(table: map<string, Value>)
    | VTables(earlier: seq<map<string, Value>>, last: map<string, Value>)

  type Fields = map<string, Value>

  /** A [table] or [[table]] with its dotted name and its own entries. */
  datatype Section = Section(isArray: bool, keys: seq<string>, entries: Fields)

  /** strconv's conversions of literals. */
  datatype Literals = Literals(parseFloat: string -> Option<real>, parseInt: string -> Option<int>,
                               unquote: string -> Option<string>)

  /** The meaning of a tree, by the symbol at its root. */
  datatype Sem =
    | SToken(text: string)
    | SEntry(key: string, value: Value)
    | SEntries(entries: Fields)
    | SValue(val: Value)
    | SValues(vals: seq<Value>)
    | STables(tables: Fields)
    | SSection(section: Section)
    | SKeys(keys: seq<string>)
    | SDocument(doc: Fields)

  /** Places a section's entries at its path; None when the path runs into something that is not a table. */
  function Insert(m: Fields, keys: seq<string>, isArray: bool, entries: Fields): Option<Fields>
    decreases keys
  {
    if keys == [] then Some(m + entries)
    else
      var key, final := keys[0], |keys| == 1;
      if key !in m then
        if isArray && final then Some(m[key := VTables([], entries)])
        else
          match Insert(map[], keys[1..], isArray, entries)
          case None => None
          case Some(inner) => Some(m[key := VTable(inner)])
      else match m[key]
        case VTable(t) =>
          if isArray && final then None
          else (match Insert(t, keys[1..], isArray, entries)
            case None => None
            case Some(inner) => Some(m[key := VTable(inner)]))
        case VTables(earlier, last) =>
          if isArray && final then Some(m[key := VTables(earlier + [last], entries)])
          else if final then None
          else (match Insert(last, keys[1..], isArray, entries)
            case None => None
            case Some(inner) => Some(m[key := VTables(earlier, inner)]))
        case _ => None
  }

  function NumberValue(lits: Literals, text: string): Option<Value> {
    if '.' in text then
      match lits.parseFloat(text) case None => None case Some(f) => Some(VFloat(f))
    else
      match lits.parseInt(text) case None => None case Some(n) => Some(VInt(n))
  }

  /** What production p makes of the meanings of its right side. */
  function Act(lits: Literals, p: int, args: seq<Sem>): Option<Sem> {
    match p
    case 1 =>
      if |args| == 2 && args[0].SEntries? && args[1].STables? then Some(SDocument(args[1].tables + args[0].entries))
          else None
    case 2 => Some(STables(map[]))
    case 3 =>
      if |args| == 2 && args[0].STables? && args[1].SSection? then
        var s := args[1].section;
        match Insert(args[0].tables, s.keys, s.isArray, s.entries)
        case None => None
        case Some(m) => Some(STables(m))
      else None
    case 4 => if |args| == 4 && args[1].SKeys? &&
        args[3].SEntries? then Some(SSection(Section(false, args[1].keys, args[3].entries))) else None
    case 5 => if |args| == 4 && args[1].SKeys? &&
        args[3].SEntries? then Some(SSection(Section(true, args[1].keys, args[3].entries))) else None
    case 6 => if |args| == 1 && args[0].SToken? then Some(SKeys([args[0].text])) else None
    case 7 => if |args| == 2 && args[0].SKeys? && args[1].SToken? then Some(SKeys(args[0].keys + [args[1].text]))
        else None
    case 8 => Some(SEntries(map[]))
    case 9 => if |args| == 2 && args[0].SEntries? &&
        args[1].SEntry? then Some(SEntries(args[0].entries[args[1].key := args[1].value])) else None
    case 10 => if |args| == 3 && args[0].SToken? && args[2].SValue? then Some(SEntry(args[0].text, args[2].val))
        else None
    case 11 => if |args| == 1 && args[0].SToken? then Some(SValue(VBool(args[0].text == "true"))) else None
    case 12 =>
      if |args| == 1 && args[0].SToken? then
        match NumberValue(lits, args[0].text) case None => None case Some(v) => Some(SValue(v))
      else None
    case 13 =>
      if |args| == 1 && args[0].SToken? then
        match lits.unquote(args[0].text) case None => None case Some(s) => Some(SValue(VString(s)))
      else None
    case 14 => if |args| == 3 && args[1].SValues? then Some(SValue(VArray(args[1].vals))) else None
    case 15 => if |args| == 1 && args[0].SValue? then Some(SValues([args[0].val])) else None
    case 16 => if |args| == 3 && args[0].SValues? && args[2].SValue? then Some(SValues(args[0].vals + [args[2].val]))
        else None
    case _ => None
  }

  /** The meaning of a tree, when all its literals are well formed and its sections fit together. */
  function Eval(lits: Literals, t: Tree): Option<Sem> {
    match t
    case Leaf(tok) => Some(SToken(tok.text))
    case Node(p, kids) =>
      match EvalAll(lits, kids)
      case None => None
      case Some(args) => Act(lits, p, args)
  }

  function EvalAll(lits: Literals, ts: seq<Tree>): (r: Option<seq<Sem>>)
    ensures r.Some? ==> |r.value| == |ts|
  {
    if ts == [] then Some([])
    else match Eval(lits, ts[0])
      case None => None
      case Some(first) =>
        match EvalAll(lits, ts[1..])
        case None => None
        case Some(others) => Some([first] + others)
  }

  lemma {:induction false} EvalAllAt(lits: Literals, ts: seq<Tree>)
    ensures EvalAll(lits, ts).Some? <==> forall i :: 0 <= i < |ts| ==> Eval(lits, ts[i]).Some?
    ensures EvalAll(lits, ts).Some? ==> forall i :: 0 <= i < |ts| ==>
      EvalAll(lits, ts).value[i] == Eval(lits, ts[i]).value
  {
    if ts != [] {
      EvalAllAt(lits, ts[1..]);
      assert forall i :: 1 <= i < |ts| ==> ts[i] == ts[1..][i - 1];
    }
  }

  /** The kind of meaning a symbol has. */
  predicate SortOf(sym: int, s: Sem) {
    if sym == EntrySym then s.SEntry?
    else if sym == EntriesSym then s.SEntries?
    else if sym == ValueSym then s.SValue?
    else if sym == ValuesSym then s.SValues?
    else if sym == TablesSym then s.STables?
    else if sym == TableSym then s.SSection?
    else if sym == KeysSym then s.SKeys?
    else if sym == TopSym then s.SDocument?
    else s.SToken?
  }

  lemma ActSort(lits: Literals, p: int, args: seq<Sem>)
    requires Act(lits, p, args).Some?
    ensures SortOf(Lhs(p), Act(lits, p, args).value)
  {
  }

  /* ---- what placing a section does ---- */

  /** The table that a path of keys leads to, going through the last table of every array. */
  function TableAt(m: Fields, path: seq<string>): Option<Fields>
    decreases path
  {
    if path == [] then Some(m)
    else if path[0] !in m then None
    else match m[path[0]]
      case VTable(t) => TableAt(t, path[1..])
      case VTables(_, last) => TableAt(last, path[1..])
      case _ => None
  }

  /** The table that a path leads to, or the empty one when there is none yet. */
  function TableOrEmpty(m: Fields, path: seq<string>): Fields {
    match TableAt(m, path)
    case Some(t) => t
    case None => map[]
  }

  /**
   * After a table section is placed, its path leads to the table that was there before, with the section's entries
   * added.
   */
  lemma {:induction false} InsertedIsFound(m: Fields, keys: seq<string>, entries: Fields)
    requires Insert(m, keys, false, entries).Some?
    ensures TableAt(Insert(m, keys, false, entries).value, keys) == Some(TableOrEmpty(m, keys) + entries)
    decreases keys
  {
    if keys != [] {
      if keys[0] !in m {
        InsertedIsFound(map[], keys[1..], entries);
      } else if m[keys[0]].VTable? {
        InsertedIsFound(m[keys[0]].table, keys[1..], entries);
      } else {
        InsertedIsFound(m[keys[0]].last, keys[1..], entries);
      }
    }
  }

  /** The tables of the array with a name, oldest first; none when there is no array yet. */
  function ArrayAt(m: Fields, keys: seq<string>): seq<Fields>
    requires keys != []
  {
    var t, key := TableOrEmpty(m, keys[..|keys| - 1]), keys[|keys| - 1];
    if key in t && t[key].VTables? then t[key].earlier + [t[key].last] else []
  }

  /**
   * An array section starts a new table with exactly its entries, after the array's other tables, which stay as they
   * were.
   */
  lemma {:induction false} ArraySectionIsFresh(m: Fields, keys: seq<string>, entries: Fields)
    requires keys != [] && Insert(m, keys, true, entries).Some?
    ensures TableAt(Insert(m, keys, true, entries).value, keys) == Some(entries)
    ensures ArrayAt(Insert(m, keys, true, entries).value, keys) == ArrayAt(m, keys) + [entries]
    decreases keys
  {
    if |keys| > 1 {
      var key := keys[0];
      var t := if key !in m then map[] else if m[key].VTable? then m[key].table else m[key].last;
      ArraySectionIsFresh(t, keys[1..], entries);
      assert keys[..|keys| - 1][1..] == keys[1..][..|keys| - 2];
    }
  }

  /** A section leaves alone every table whose path parts from its own. */
  lemma {:induction false} OtherPathsUnchanged(m: Fields, keys: seq<string>, isArray: bool, entries: Fields,
                                               path: seq<string>, n: nat)
    requires Insert(m, keys, isArray, entries).Some?
    requires n < |keys| && n < |path| && keys[..n] == path[..n] && keys[n] != path[n]
    requires TableAt(m, path).Some?
    ensures TableAt(Insert(m, keys, isArray, entries).value, path) == TableAt(m, path)
    decreases keys
  {
    if n > 0 {
      var key := keys[0];
      assert path[0] == path[..n][0] == keys[..n][0] == key;
      assert keys[1..][..n - 1] == keys[..n][1..] == path[..n][1..] == path[1..][..n - 1];
      if m[key].VTable? {
        OtherPathsUnchanged(m[key].table, keys[1..], isArray, entries, path[1..], n - 1);
      } else {
        OtherPathsUnchanged(m[key].last, keys[1..], isArray, entries, path[1..], n - 1);
      }
    }
  }

  /** How a path is read by a section name: whether it may lead through, or end at, the value found. */
  ghost predicate Blocks(m: Fields, keys: seq<string>, isArray: bool, n: nat)
    requires n < |keys|
  {
    && TableAt(m, keys[..n]).Some? && keys[n] in TableAt(m, keys[..n]).value
    && match TableAt(m, keys[..n]).value[keys[n]]
      case VTable(_) => isArray && n == |keys| - 1
      case VTables(_, _) => !isArray && n == |keys| - 1
      case _ => true
  }

  /** A section is refused exactly when some prefix of its name is already a value it cannot go through or reuse. */
  lemma {:induction false} InsertFailsWhenBlocked(m: Fields, keys: seq<string>, isArray: bool, entries: Fields)
    ensures Insert(m, keys, isArray, entries) == None <==> exists n :: 0 <= n < |keys| && Blocks(m, keys, isArray, n)
    decreases keys
  {
    if keys != [] {
      var key := keys[0];
      assert keys[..0] == [];
      if key !in m {
        InsertFailsWhenBlocked(map[], keys[1..], isArray, entries);
        NothingBlocks(keys[1..], isArray);
        forall n | 0 <= n < |keys| ensures !Blocks(m, keys, isArray, n) {
          if n > 0 { assert keys[..n][0] == key; }
        }
      } else if m[key].VTable? || m[key].VTables? {
        var t := if m[key].VTable? then m[key].table else m[key].last;
        InsertFailsWhenBlocked(t, keys[1..], isArray, entries);
        BlocksBelow(m, t, keys, isArray);
      } else {
        assert Blocks(m, keys, isArray, 0);
      }
    }
  }

  lemma NothingBlocks(keys: seq<string>, isArray: bool)
    ensures forall n :: 0 <= n < |keys| ==> !Blocks(map[], keys, isArray, n)
  {
    forall n | 0 <= n < |keys| ensures !Blocks(map[], keys, isArray, n) {
      if n > 0 { assert keys[..n] != []; }
    }
  }

  lemma BlocksBelow(m: Fields, t: Fields, keys: seq<string>, isArray: bool)
    requires keys != [] && keys[0] in m
    requires match m[keys[0]] case VTable(x) => x == t case VTables(_, x) => x == t case _ => false
    ensures (exists n :: 0 <= n < |keys| && Blocks(m, keys, isArray, n))
      <==> Blocks(m, keys, isArray, 0) || exists n :: 0 <= n < |keys| - 1 && Blocks(t, keys[1..], isArray, n)
  {
    forall n | 0 < n < |keys| ensures Blocks(m, keys, isArray, n) <==> Blocks(t, keys[1..], isArray, n - 1) {
      assert keys[..n][0] == keys[0] && keys[..n][1..] == keys[1..][..n - 1];
    }
    if n :| 0 <= n < |keys| && Blocks(m, keys, isArray, n) {
      assert n > 0 ==> Blocks(t, keys[1..], isArray, n - 1);
    }
    if n :| 0 <= n < |keys| - 1 && Blocks(t, keys[1..], isArray, n) {
      assert Blocks(m, keys, isArray, n + 1);
    }
  }
}
