/**
 The six Padlock instructions, the two symbol sets that spell them, and the
 character classes the parser needs (symbol lookup, whitespace).
 */
module Instructions {

  datatype Option<T> = None | Some(value: T)

  /** An instruction descriptor: its name, its glyph, how many name arguments
      follow it and how many processes it leaves running (0 ends a branch,
      2 forks it). */
  datatype Instruction = Instruction(name: string, symbol: char, args: nat, processes: nat)

  // The default glyphs: LOCK, OPEN LOCK, KEY, LOWER LEFT FOUNTAIN PEN,
  // CLOSED LOCK WITH KEY and LOCK WITH INK PEN.
  const Lock: char := '\U{1F512}'
  const Unlock: char := '\U{1F513}'
  const Key: char := '\U{1F511}'
  const Pen: char := '\U{1F58B}'
  const Keylock: char := '\U{1F510}'
  const Penlock: char := '\U{1F50F}'

  const Nil: Instruction := Instruction("nil", Lock, 0, 0)
  const Split: Instruction := Instruction("split", Unlock, 0, 2)
  const Decrypt: Instruction := Instruction("decrypt", Key, 2, 1)
  const NameIns: Instruction := Instruction("name", Pen, 1, 1)
  const Send: Instruction := Instruction("send", Keylock, 2, 1)
  const Receive: Instruction := Instruction("receive", Penlock, 2, 1)

  /** The instruction table, in the order the symbol sets follow. */
  const Table: seq<Instruction> := [Nil, Split, Decrypt, NameIns, Send, Receive]

  /** The symbols the parser recognises: the glyphs by default, capital
      letters when `ascii` is set. Position k selects Table[k]. */
  function Symbols(ascii: bool): (s: seq<char>)
    ensures |s| == |Table|
    ensures forall i, j :: 0 <= i < j < |s| ==> s[i] != s[j]
  {
    if ascii then ['N', 'S', 'K', 'P', 'E', 'R']
    else [Lock, Unlock, Key, Pen, Keylock, Penlock]
  }

  /** The delimiter that closes a name: the symbol of the `name` instruction. */
  function Delimiter(ascii: bool): (d: char)
    ensures IndexOf(Symbols(ascii), d) == Some(3) && Table[3] == NameIns
  {
    SymbolsSelect(ascii, 3);
    Symbols(ascii)[3]
  }

  /** Position of the first occurrence of `c` in `s` (a tuple's `index`);
      None where that raises ValueError. */
  function IndexOf(s: seq<char>, c: char): (r: Option<nat>)
    ensures r.None? <==> c !in s
    ensures r.Some? ==> r.value < |s| && s[r.value] == c && c !in s[..r.value]
  {
    if s == [] then None
    else if s[0] == c then Some(0)
    else match IndexOf(s[1..], c)
      case None => None
      case Some(k) => assert s[..k + 1] == [s[0]] + s[1..][..k]; Some(k + 1)
  }

  /** Both symbol sets consist of six distinct characters, so every symbol
      selects exactly the instruction at its own position. */
  lemma {:induction false} SymbolsSelect(ascii: bool, k: nat)
    requires k < |Table|
    ensures IndexOf(Symbols(ascii), Symbols(ascii)[k]) == Some(k)
  {
    var s := Symbols(ascii);
    forall j | 0 <= j < k ensures s[j] != s[k] {
    }
    assert s[k] !in s[..k];
  }

  /** What the parser relies on about the table: arities are 0 to 2, only
      `nil` ends a branch, only `split` forks it, and every other instruction
      takes at least one name. */
  lemma TableFacts(ins: Instruction)
    requires ins in Table
    ensures ins.args <= 2 && ins.processes <= 2
    ensures ins.processes == 0 <==> ins == Nil
    ensures ins.processes == 2 <==> ins == Split
    ensures ins != Nil && ins != Split ==> ins.args >= 1
    ensures ins == Nil || ins == Split ==> ins.args == 0
  {
  }

  /** Python's str.isspace on one character: the Unicode whitespace set. */
  predicate IsSpace(c: char)
    ensures IsSpace(c) ==> c !in Symbols(false) && c !in Symbols(true)
  {
    ('\t' <= c <= '\r') || ('\U{1C}' <= c <= ' ') || c == '\U{85}' || c == '\U{A0}'
    || c == '\U{1680}' || ('\U{2000}' <= c <= '\U{200A}') || c == '\U{2028}' || c == '\U{2029}'
    || c == '\U{202F}' || c == '\U{205F}' || c == '\U{3000}'
  }
}
