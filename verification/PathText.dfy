/** Field paths as text, and the reader that shows the text is unambiguous. */
module PathText {
  import opened Wrappers
  import opened Elements

  /** What a subscript prints as: the integer kinds print alike. */
  datatype Key = NumberKey(i: int) | BitKey(b: bool) | TextKey(s: string)

  datatype Hop = Hop(name: string, key: Option<Key>)

  function KeyOf(s: Subscript): Key {
    match s
    case Index(n) => NumberKey(n)
    case UintKey(n) => NumberKey(n)
    case IntKey(i) => NumberKey(i)
    case BoolKey(b) => BitKey(b)
    case StringKey(t) => TextKey(t)
  }

  function HopOf(e: Element): Hop {
    Hop(e.name.GetOr([]), if e.subscript.None? then None else Some(KeyOf(e.subscript.value)))
  }

  function HopsOf(es: seq<Element>): seq<Hop> {
    seq(|es|, i requires 0 <= i < |es| => HopOf(es[i]))
  }

  // ------------------------------------------------------------------- printing

  function Digit(d: nat): char
    requires d < 10
  {
    '0' + d as char
  }

  function Digits(n: nat): (s: string)
    ensures s != []
  {
    if n < 10 then [Digit(n)] else Digits(n / 10) + [Digit(n % 10)]
  }

  function Number(i: int): string {
    if i < 0 then ['-'] + Digits(-i) else Digits(i)
  }

  function EscapedChar(c: char): string {
    if c == '\\' then ['\\', '\\']
    else if c == '"' then ['\\', '"']
    else if c == '\r' then ['\\', 'r']
    else if c == '\n' then ['\\', 'n']
    else [c]
  }

  function Escaped(s: string): string {
    if s == [] then [] else EscapedChar(s[0]) + Escaped(s[1..])
  }

  function Bit(b: bool): string {
    if b then "true" else "false"
  }

  /** What stands between the brackets of a subscript. */
  function Inner(k: Key): string {
    match k
    case NumberKey(i) => Number(i)
    case BitKey(b) => Bit(b)
    case TextKey(t) => ['"'] + (Escaped(t) + ['"'])
  }

  function KeyText(k: Option<Key>): string {
    if k.None? then [] else ['['] + (Inner(k.value) + [']'])
  }

  predicate Bracketed(name: string) {
    name != [] && name[0] == '['
  }

  /** An extension's name is already bracketed, so it takes no dot. */
  function Separator(name: string, first: bool): string {
    if !first && !Bracketed(name) then ['.'] else []
  }

  /** The text of the hops from position `i` on. */
  function TextFrom(hops: seq<Hop>, i: nat): string
    requires i <= |hops|
    decreases |hops| - i
  {
    if i == |hops| then []
    else Separator(hops[i].name, i == 0) + (hops[i].name + (KeyText(hops[i].key) + TextFrom(hops, i + 1)))
  }

  function PathText(es: seq<Element>): string {
    TextFrom(HopsOf(es), 0)
  }

  // ------------------------------------------------------------- what is printed

  function Value(digits: string): int {
    if digits == [] then 0
    else 10 * Value(digits[..|digits| - 1]) + (digits[|digits| - 1] as int - '0' as int)
  }

  /** Decimal, without leading zeros. */
  predicate Decimal(digits: string, n: nat) {
    && digits != [] && (forall i :: 0 <= i < |digits| ==> '0' <= digits[i] <= '9')
    && (digits[0] == '0' ==> |digits| == 1)
    && Value(digits) == n
  }

  lemma {:induction false} DigitsDecimal(n: nat)
    ensures Decimal(Digits(n), n) && (n > 0 ==> Digits(n)[0] != '0')
  {
    var s := Digits(n);
    if n < 10 {
      assert s[..0] == [];
    } else {
      DigitsDecimal(n / 10);
      assert s[..|s| - 1] == Digits(n / 10);
    }
  }

  /** Backslash, quote, carriage return and line feed are written with a backslash. */
  predicate Quotes(text: string, quoted: string) {
    if text == [] then quoted == []
    else if text[0] in "\\\"\r\n" then
      && |quoted| >= 2 && quoted[0] == '\\'
      && quoted[1] == (if text[0] == '\r' then 'r' else if text[0] == '\n' then 'n' else text[0])
      && Quotes(text[1..], quoted[2..])
    else quoted != [] && quoted[0] == text[0] && Quotes(text[1..], quoted[1..])
  }

  lemma {:induction false} EscapedQuotes(text: string)
    ensures Quotes(text, Escaped(text))
  {
    if text != [] {
      EscapedQuotes(text[1..]);
      var head := EscapedChar(text[0]);
      assert Escaped(text)[|head|..] == Escaped(text[1..]);
    }
  }

  ghost predicate IntegerPrinted(i: int, text: string) {
    var n := if i < 0 then -i else i;
    exists digits :: Decimal(digits, n) && text == (if i < 0 then "[-" else "[") + digits + "]"
  }

  ghost predicate SubscriptPrinted(s: Option<Subscript>, text: string) {
    match s
    case None => text == []
    case Some(Index(n)) => IntegerPrinted(n, text)
    case Some(UintKey(n)) => IntegerPrinted(n, text)
    case Some(IntKey(i)) => IntegerPrinted(i, text)
    case Some(BoolKey(b)) => text == if b then "[true]" else "[false]"
    case Some(StringKey(t)) => exists quoted :: Quotes(t, quoted) && text == "[\"" + quoted + "\"]"
  }

  /** A dot, unless it is first or its name starts with a bracket; its name; its subscript. */
  ghost predicate ElementPrinted(e: Element, first: bool, text: string) {
    var name := match e.name case None => "" case Some(n) => n;
    exists key ::
      SubscriptPrinted(e.subscript, key)
      && text == (if first || (name != "" && name[0] == '[') then "" else ".") + name + key
  }

  /** The text of the elements from position `i` on. */
  ghost predicate PrintedFrom(es: seq<Element>, i: nat, text: string)
    requires i <= |es|
    decreases |es| - i
  {
    if i == |es| then text == []
    else exists part, rest ::
      ElementPrinted(es[i], i == 0, part) && PrintedFrom(es, i + 1, rest) && text == part + rest
  }

  lemma {:induction false} KeyPrinted(s: Option<Subscript>)
    ensures SubscriptPrinted(s, KeyText(if s.None? then None else Some(KeyOf(s.value))))
  {
    match s
    case None =>
    case Some(Index(n)) => NumberPrinted(n);
    case Some(UintKey(n)) => NumberPrinted(n);
    case Some(IntKey(i)) => NumberPrinted(i);
    case Some(BoolKey(_)) =>
    case Some(StringKey(t)) =>
      EscapedQuotes(t);
      assert KeyText(Some(TextKey(t))) == "[\"" + Escaped(t) + "\"]";
  }

  lemma {:induction false} SignText(negative: bool, digits: string)
    ensures ['['] + ((if negative then ['-'] + digits else digits) + [']'])
         == (if negative then "[-" else "[") + digits + "]"
  {
  }

  lemma {:induction false} NumberPrinted(i: int)
    ensures IntegerPrinted(i, KeyText(Some(NumberKey(i))))
  {
    var n := if i < 0 then -i else i;
    DigitsDecimal(n);
    SignText(i < 0, Digits(n));
  }

  lemma {:induction false} ElementText(e: Element, first: bool)
    ensures ElementPrinted(e, first, Separator(HopOf(e).name, first) + HopOf(e).name + KeyText(HopOf(e).key))
  {
    KeyPrinted(e.subscript);
  }

  lemma {:induction false} PartPrinted(es: seq<Element>, i: nat, part: string, rest: string)
    requires i < |es| && ElementPrinted(es[i], i == 0, part) && PrintedFrom(es, i + 1, rest)
    ensures PrintedFrom(es, i, part + rest)
  {
  }

  lemma {:induction false} TextSplits(a: string, b: string, c: string, rest: string)
    ensures a + (b + (c + rest)) == a + b + c + rest
  {
  }

  /** The text of a path is its elements' parts, in order. */
  lemma {:induction false} PathPrinted(es: seq<Element>, i: nat)
    requires i <= |es|
    ensures PrintedFrom(es, i, TextFrom(HopsOf(es), i))
    decreases |es| - i
  {
    if i < |es| {
      var hop, rest := HopOf(es[i]), TextFrom(HopsOf(es), i + 1);
      PathPrinted(es, i + 1);
      ElementText(es[i], i == 0);
      PartPrinted(es, i, Separator(hop.name, i == 0) + hop.name + KeyText(hop.key), rest);
      TextSplits(Separator(hop.name, i == 0), hop.name, KeyText(hop.key), rest);
    }
  }

  class Formatter {
    var text: string

    constructor ()
      ensures text == []
    {
      text := [];
    }

    method Write(s: string)
      modifies this
      ensures text == old(text) + s
    {
      text := text + s;
    }
  }

  lemma {:induction false} Regrouped(a: string, b: string, c: string, d: string, e: string)
    ensures a + (b + (c + (d + e))) == a + b + c + d + e
  {
  }

  lemma {:induction false} TextNext(before: string, es: seq<Element>, i: nat)
    requires i < |es|
    ensures var hop := HopOf(es[i]);
            before + TextFrom(HopsOf(es), i)
            == before + Separator(hop.name, i == 0) + hop.name + KeyText(hop.key) + TextFrom(HopsOf(es), i + 1)
  {
    var hop := HopOf(es[i]);
    Regrouped(before, Separator(hop.name, i == 0), hop.name, KeyText(hop.key), TextFrom(HopsOf(es), i + 1));
  }

  lemma {:induction false} Grouped(a: string, b: string, c: string)
    ensures a + (b + c) == a + b + c
  {
  }

  method WriteFieldPath(f: Formatter, path: seq<Element>)
    modifies f
    ensures f.text == old(f.text) + PathText(path) && PrintedFrom(path, 0, PathText(path))
  {
    var i := 0;
    while i < |path|
      invariant 0 <= i <= |path|
      invariant f.text + TextFrom(HopsOf(path), i) == old(f.text) + PathText(path)
    {
      TextNext(f.text, path, i);
      WriteElement(f, path[i], i == 0);
      i := i + 1;
    }
    assert f.text + [] == f.text;
    PathPrinted(path, 0);
  }

  method WriteElement(f: Formatter, element: Element, first: bool)
    modifies f
    ensures var hop := HopOf(element);
            f.text == old(f.text) + Separator(hop.name, first) + hop.name + KeyText(hop.key)
  {
    var name := element.name.GetOr([]);
    if !first && !Bracketed(name) {
      f.Write(['.']);
    } else {
      assert f.text + [] == f.text;
    }
    f.Write(name);
    if element.subscript.Some? {
      WriteSubscript(f, element.subscript.value);
    } else {
      assert f.text + [] == f.text;
    }
  }

  method WriteSubscript(f: Formatter, subscript: Subscript)
    modifies f
    ensures f.text == old(f.text) + (['['] + (Inner(KeyOf(subscript)) + [']']))
  {
    ghost var inner := Inner(KeyOf(subscript));
    f.Write(['[']);
    match subscript {
      case StringKey(key) => WriteQuoted(f, key);
      case BoolKey(b) => f.Write(Bit(b));
      case IntKey(i) => f.Write(Number(i));
      case UintKey(n) => f.Write(Number(n));
      case Index(n) => f.Write(Number(n));
    }
    assert f.text == old(f.text) + ['['] + inner;
    f.Write([']']);
    Grouped(old(f.text), ['['], inner + [']']);
    Grouped(old(f.text) + ['['], inner, [']']);
  }

  method WriteQuoted(f: Formatter, key: string)
    modifies f
    ensures f.text == old(f.text) + (['"'] + (Escaped(key) + ['"']))
  {
    f.Write(['"']);
    WriteEscaped(f, key);
    f.Write(['"']);
    Grouped(old(f.text), ['"'], Escaped(key) + ['"']);
    Grouped(old(f.text) + ['"'], Escaped(key), ['"']);
  }

  method WriteEscaped(f: Formatter, key: string)
    modifies f
    ensures f.text == old(f.text) + Escaped(key)
  {
    var i := 0;
    assert key[0..] == key;
    while i < |key|
      invariant 0 <= i <= |key|
      invariant f.text + Escaped(key[i..]) == old(f.text) + Escaped(key)
    {
      ghost var before := f.text;
      assert key[i..][1..] == key[i + 1..];
      Grouped(before, EscapedChar(key[i]), Escaped(key[i + 1..]));
      f.Write(EscapedChar(key[i]));
      i := i + 1;
    }
    assert f.text + [] == f.text;
  }

  /** `<field path>: <message>`, without an empty field path; the rule id stands in for an empty message. */
  method WriteViolation(f: Formatter, path: seq<Element>, message: Option<string>, ruleId: Option<string>)
    modifies f
    ensures PrintedFrom(path, 0, PathText(path))
    ensures f.text == old(f.text) + (if path == [] then "" else PathText(path) + ": ")
                      + (if message.Some? && message.value != "" then message.value
                         else if ruleId.Some? && ruleId.value != "" then "[" + ruleId.value + "]"
                         else "[unknown]")
  {
    PathPrinted(path, 0);
    if path != [] {
      WriteFieldPath(f, path);
      f.Write(": ");
      Grouped(old(f.text), PathText(path), ": ");
    } else {
      assert f.text + [] == f.text;
    }
    WriteExplanation(f, message.GetOr([]), ruleId.GetOr([]));
  }

  /** Never empty. */
  method WriteExplanation(f: Formatter, message: string, ruleId: string)
    modifies f
    ensures f.text == old(f.text) + (if message != "" then message
                                     else if ruleId != "" then "[" + ruleId + "]" else "[unknown]")
  {
    if message != [] {
      f.Write(message);
    } else if ruleId != [] {
      f.Write(['['] + ruleId + [']']);
    } else {
      f.Write("[unknown]");
    }
  }

  // -------------------------------------------------------------------- reading

  predicate Letter(c: char) {
    'a' <= c <= 'z' || 'A' <= c <= 'Z' || c == '_'
  }

  predicate IsDigit(c: char) {
    '0' <= c <= '9'
  }

  predicate Word(c: char) {
    Letter(c) || IsDigit(c)
  }

  predicate Identifier(s: string) {
    s != [] && Letter(s[0]) && forall i :: 0 <= i < |s| ==> Word(s[i])
  }

  /** The full name inside an extension's brackets. */
  predicate DottedName(s: string) {
    s != [] && Letter(s[0]) && forall i :: 0 <= i < |s| ==> Word(s[i]) || s[i] == '.'
  }

  /** `[pkg.ext]`. */
  predicate ExtensionName(s: string) {
    |s| >= 2 && s[0] == '[' && s[|s| - 1] == ']' && DottedName(s[1..|s| - 1])
  }

  predicate NamesOk(hops: seq<Hop>) {
    forall i :: 0 <= i < |hops| ==> Identifier(hops[i].name) || ExtensionName(hops[i].name)
  }

  /** An extension with a name that prints like a boolean key. */
  predicate LikeKey(name: string) {
    name == "[true]" || name == "[false]"
  }

  /** Such a name looks like the key of the hop before it, if that one has none. */
  predicate Mistakable(hops: seq<Hop>, i: nat) {
    0 < i < |hops| && LikeKey(hops[i].name) && hops[i - 1].key.None?
  }

  /** The longest run of word characters, and the rest. */
  function SpanWord(s: string): (r: (string, string))
    ensures s == r.0 + r.1
  {
    if s == [] || !Word(s[0]) then ([], s)
    else
      var (word, rest) := SpanWord(s[1..]);
      ([s[0]] + word, rest)
  }

  /** Up to the first closing bracket, and what follows it. */
  function SpanBracket(s: string): (r: Option<(string, string)>)
    ensures r.Some? ==> |r.value.1| < |s|
  {
    if s == [] then None
    else if s[0] == ']' then Some(([], s[1..]))
    else
      var (inner, rest) :- SpanBracket(s[1..]);
      Some(([s[0]] + inner, rest))
  }

  function ReadDigits(s: string): Option<nat> {
    if s == [] then Some(0)
    else
      var high :- ReadDigits(s[..|s| - 1]);
      var c := s[|s| - 1];
      if IsDigit(c) then Some(10 * high + (c as int - '0' as int)) else None
  }

  function ReadNumber(s: string): Option<int> {
    var negative := s != [] && s[0] == '-';
    match ReadDigits(if negative then s[1..] else s)
    case None => None
    case Some(n) => Some(if negative then 0 - n else n)
  }

  /** The text up to the closing quote, unescaped. */
  function ReadQuoted(s: string): (r: Option<(string, string)>)
    ensures r.Some? ==> |r.value.1| < |s|
  {
    if s == [] then None
    else if s[0] == '"' then Some(([], s[1..]))
    else if s[0] == '\\' then
      if |s| < 2 then None
      else
        var c := if s[1] == 'r' then '\r' else if s[1] == 'n' then '\n' else s[1];
        var (text, rest) :- ReadQuoted(s[2..]);
        Some(([c] + text, rest))
    else
      var (text, rest) :- ReadQuoted(s[1..]);
      Some(([s[0]] + text, rest))
  }

  /** What the text between brackets means; `None` for an extension's name. */
  function ReadInner(inner: string): Option<Option<Key>> {
    if inner == "true" then Some(Some(BitKey(true)))
    else if inner == "false" then Some(Some(BitKey(false)))
    else if inner != [] && Letter(inner[0]) then Some(None)
    else
      var i :- ReadNumber(inner);
      Some(Some(NumberKey(i)))
  }

  /** A subscript, if there is one; a bracketed name is left for the next hop. */
  function ReadKey(s: string): (r: Option<(Option<Key>, string)>)
    ensures r.Some? ==> |r.value.1| <= |s|
  {
    if s == [] || s[0] != '[' then Some((None, s))
    else if |s| > 1 && s[1] == '"' then
      var (text, rest) :- ReadQuoted(s[2..]);
      if rest != [] && rest[0] == ']' then Some((Some(TextKey(text)), rest[1..])) else None
    else
      var (inner, rest) :- SpanBracket(s[1..]);
      var key :- ReadInner(inner);
      Some(if key.None? then (None, s) else (key, rest))
  }

  function ReadName(s: string, first: bool): (r: Option<(string, string)>)
    ensures r.Some? ==> |r.value.1| < |s|
  {
    if s == [] then None
    else if s[0] == '[' then
      var (inner, rest) :- SpanBracket(s[1..]);
      Some((['['] + (inner + [']']), rest))
    else if first then
      var (word, rest) := SpanWord(s);
      if word == [] then None else Some((word, rest))
    else if s[0] == '.' then Some(SpanWord(s[1..]))
    else None
  }

  function ReadPath(s: string, first: bool): Option<seq<Hop>>
    decreases |s|
  {
    if s == [] then Some([]) else
    var (name, rest) :- ReadName(s, first);
    var (key, rest1) :- ReadKey(rest);
    var hops :- ReadPath(rest1, false);
    Some([Hop(name, key)] + hops)
  }

  // ---------------------------------------------------------- reading undoes printing

  lemma {:induction false} SpanWordOf(word: string, rest: string)
    requires forall i :: 0 <= i < |word| ==> Word(word[i])
    requires rest == [] || !Word(rest[0])
    ensures SpanWord(word + rest) == (word, rest)
  {
    if word == [] {
      assert word + rest == rest;
    } else {
      assert (word + rest)[1..] == word[1..] + rest;
      SpanWordOf(word[1..], rest);
      assert [word[0]] + word[1..] == word;
    }
  }

  lemma {:induction false} SpanBracketOf(inner: string, rest: string)
    requires forall i :: 0 <= i < |inner| ==> inner[i] != ']'
    ensures SpanBracket(inner + ([']'] + rest)) == Some((inner, rest))
  {
    var s := inner + ([']'] + rest);
    if inner == [] {
      assert s[1..] == rest;
    } else {
      assert s[1..] == inner[1..] + ([']'] + rest);
      SpanBracketOf(inner[1..], rest);
      assert [inner[0]] + inner[1..] == inner;
    }
  }

  lemma {:induction false} DigitsRead(n: nat)
    ensures ReadDigits(Digits(n)) == Some(n)
    ensures forall i :: 0 <= i < |Digits(n)| ==> IsDigit(Digits(n)[i])
  {
    var s := Digits(n);
    if n < 10 {
      assert s[..0] == [];
    } else {
      DigitsRead(n / 10);
      assert s[..|s| - 1] == Digits(n / 10);
    }
  }

  lemma {:induction false} SignedRead(digits: string, n: nat)
    requires digits != [] && IsDigit(digits[0]) && ReadDigits(digits) == Some(n)
    ensures ReadNumber(digits) == Some(n) && ReadNumber(['-'] + digits) == Some(0 - n)
  {
    assert (['-'] + digits)[1..] == digits;
  }

  lemma {:induction false} NumberRead(i: int)
    ensures ReadNumber(Number(i)) == Some(i)
    ensures Number(i) != [] && !Letter(Number(i)[0]) && Number(i)[0] != '"'
    ensures forall k :: 0 <= k < |Number(i)| ==> Number(i)[k] != ']'
  {
    var n := if i < 0 then -i else i;
    DigitsRead(n);
    SignedRead(Digits(n), n);
  }

  lemma {:induction false} QuotedRead(text: string, rest: string)
    ensures ReadQuoted(Escaped(text) + (['"'] + rest)) == Some((text, rest))
  {
    var s := Escaped(text) + (['"'] + rest);
    if text == [] {
      assert s[1..] == rest;
    } else {
      EscapeRead(text[0], Escaped(text[1..]) + (['"'] + rest));
      Grouped(EscapedChar(text[0]), Escaped(text[1..]), ['"'] + rest);
      QuotedRead(text[1..], rest);
      assert [text[0]] + text[1..] == text;
    }
  }

  /** One escaped character is read as the character. */
  lemma {:induction false} EscapeRead(c: char, tail: string)
    ensures ReadQuoted(EscapedChar(c) + tail)
         == match ReadQuoted(tail) case None => None case Some((text, rest)) => Some(([c] + text, rest))
  {
    var head := EscapedChar(c);
    assert (head + tail)[|head|..] == tail;
  }

  /** What may follow an element without a key: nothing, a dot, or an extension's name unlike a key. */
  ghost predicate TailOk(s: string) {
    || s == [] || s[0] == '.'
    || exists name, rest :: DottedName(name) && name != "true" && name != "false"
                            && s == ['['] + (name + ([']'] + rest))
  }

  lemma {:induction false} BracketRead(inner: string, rest: string)
    requires forall i :: 0 <= i < |inner| ==> inner[i] != ']'
    requires inner == [] || inner[0] != '"'
    ensures var s := ['['] + (inner + ([']'] + rest));
            ReadKey(s) == match ReadInner(inner)
                          case None => None
                          case Some(key) => Some(if key.None? then (None, s) else (key, rest))
  {
    var s := ['['] + (inner + ([']'] + rest));
    assert s[1..] == inner + ([']'] + rest);
    SpanBracketOf(inner, rest);
  }

  lemma {:induction false} NoKeyRead(tail: string)
    requires TailOk(tail)
    ensures ReadKey(tail) == Some((None, tail))
  {
    if tail != [] && tail[0] != '.' {
      var name, rest :| DottedName(name) && name != "true" && name != "false"
        && tail == ['['] + (name + ([']'] + rest));
      BracketRead(name, rest);
    }
  }

  lemma {:induction false} TextKeyRead(t: string, tail: string)
    ensures ReadKey(['['] + (Inner(TextKey(t)) + ([']'] + tail))) == Some((Some(TextKey(t)), tail))
  {
    var s := ['['] + (Inner(TextKey(t)) + ([']'] + tail));
    assert s[2..] == Escaped(t) + (['"'] + ([']'] + tail));
    QuotedRead(t, [']'] + tail);
    assert ([']'] + tail)[1..] == tail;
  }

  lemma {:induction false} SomeKeyRead(k: Key, tail: string)
    ensures ReadKey(['['] + (Inner(k) + ([']'] + tail))) == Some((Some(k), tail))
  {
    match k
    case TextKey(t) => TextKeyRead(t, tail);
    case BitKey(b) => BracketRead(Bit(b), tail);
    case NumberKey(i) =>
      NumberRead(i);
      BracketRead(Number(i), tail);
  }

  lemma {:induction false} BracketsGroup(inner: string, tail: string)
    ensures ['['] + (inner + [']']) + tail == ['['] + (inner + ([']'] + tail))
  {
  }

  lemma {:induction false} KeyRead(k: Option<Key>, tail: string)
    requires k.None? ==> TailOk(tail)
    ensures ReadKey(KeyText(k) + tail) == Some((k, tail))
    ensures KeyText(k) + tail == [] || !Word((KeyText(k) + tail)[0])
  {
    if k.None? {
      assert KeyText(k) + tail == tail;
      NoKeyRead(tail);
    } else {
      BracketsGroup(Inner(k.value), tail);
      SomeKeyRead(k.value, tail);
    }
  }

  lemma {:induction false} ExtensionSplit(name: string, rest: string)
    requires ExtensionName(name)
    ensures var inner := name[1..|name| - 1];
            name == ['['] + (inner + [']']) && name + rest == ['['] + (inner + ([']'] + rest))
  {
  }

  lemma {:induction false} NameRead(name: string, first: bool, rest: string)
    requires Identifier(name) || ExtensionName(name)
    requires rest == [] || !Word(rest[0])
    ensures ReadName(Separator(name, first) + (name + rest), first) == Some((name, rest))
  {
    var s := Separator(name, first) + (name + rest);
    if ExtensionName(name) {
      var inner := name[1..|name| - 1];
      ExtensionSplit(name, rest);
      assert s == name + rest;
      assert s[1..] == inner + ([']'] + rest);
      SpanBracketOf(inner, rest);
    } else {
      SpanWordOf(name, rest);
      assert first ==> s == name + rest;
      assert !first ==> s[1..] == name + rest;
    }
  }

  lemma {:induction false} TextTailOk(name: string, rest: string)
    requires Identifier(name) || ExtensionName(name)
    ensures !LikeKey(name) ==> TailOk(Separator(name, false) + (name + rest))
  {
    if ExtensionName(name) && !LikeKey(name) {
      ExtensionSplit(name, rest);
      assert [] + (name + rest) == name + rest;
      var inner := name[1..|name| - 1];
      assert inner != "true" && inner != "false";
    }
  }

  /** One hop is read, when what follows cannot be taken for its key. */
  lemma {:induction false} ReadOne(hop: Hop, first: bool, tail: string)
    requires Identifier(hop.name) || ExtensionName(hop.name)
    requires hop.key.None? ==> TailOk(tail)
    ensures ReadPath(Separator(hop.name, first) + (hop.name + (KeyText(hop.key) + tail)), first)
         == match ReadPath(tail, false) case None => None case Some(hops) => Some([hop] + hops)
  {
    KeyRead(hop.key, tail);
    NameRead(hop.name, first, KeyText(hop.key) + tail);
  }

  /** Otherwise, what follows is taken for its key. */
  lemma {:induction false} ReadWrong(hop: Hop, first: bool, next: string, tail: string)
    requires Identifier(hop.name) || ExtensionName(hop.name)
    requires hop.key.None? && LikeKey(next)
    ensures ReadPath(Separator(hop.name, first) + (hop.name + (KeyText(hop.key) + (next + tail))), first)
         == match ReadPath(tail, false)
            case None => None
            case Some(hops) => Some([Hop(hop.name, Some(BitKey(next == "[true]")))] + hops)
  {
    var inner := if next == "[true]" then "true" else "false";
    var rest := ['['] + (inner + ([']'] + tail));
    assert next + tail == rest && KeyText(hop.key) + rest == rest;
    BracketRead(inner, tail);
    NameRead(hop.name, first, rest);
  }

  /** The text from hop `i` on, of which hop `i - 1` may have to be told apart. */
  lemma {:induction false} TailOf(hops: seq<Hop>, i: nat)
    requires NamesOk(hops) && 0 < i <= |hops| && hops[i - 1].key.None? && !Mistakable(hops, i)
    ensures TailOk(TextFrom(hops, i))
  {
    if i < |hops| {
      TextTailOk(hops[i].name, KeyText(hops[i].key) + TextFrom(hops, i + 1));
    }
  }

  lemma {:induction false} ReadStep(hops: seq<Hop>, i: nat)
    requires NamesOk(hops) && i < |hops| && !Mistakable(hops, i + 1)
    ensures ReadPath(TextFrom(hops, i), i == 0)
         == match ReadPath(TextFrom(hops, i + 1), false) case None => None case Some(rest) => Some([hops[i]] + rest)
  {
    if hops[i].key.None? {
      TailOf(hops, i + 1);
    }
    ReadOne(hops[i], i == 0, TextFrom(hops, i + 1));
  }

  lemma {:induction false} FirstHop(hops: seq<Hop>, i: nat)
    requires i < |hops|
    ensures [hops[i]] + hops[i + 1..] == hops[i..]
  {
  }

  lemma {:induction false} ReadsFrom(hops: seq<Hop>, i: nat)
    requires i <= |hops| && NamesOk(hops) && forall k :: i < k < |hops| ==> !Mistakable(hops, k)
    ensures ReadPath(TextFrom(hops, i), i == 0) == Some(hops[i..])
    decreases |hops| - i
  {
    if i == |hops| {
      assert hops[i..] == [];
    } else {
      ReadsFrom(hops, i + 1);
      assert !Mistakable(hops, i + 1);
      ReadStep(hops, i);
      FirstHop(hops, i);
    }
  }

  lemma {:induction false} TextLikeKey(hops: seq<Hop>, i: nat)
    requires 0 < i < |hops| && LikeKey(hops[i].name)
    ensures TextFrom(hops, i) == hops[i].name + (KeyText(hops[i].key) + TextFrom(hops, i + 1))
  {
    var rest := hops[i].name + (KeyText(hops[i].key) + TextFrom(hops, i + 1));
    assert Separator(hops[i].name, false) == [];
    assert [] + rest == rest;
  }

  /** A reading that starts with another hop, or goes on with other hops, is another reading. */
  lemma {:induction false} OtherReading(read: Option<seq<Hop>>, rest: Option<seq<Hop>>, hop: Hop, hops: seq<Hop>,
                                        i: nat)
    requires i < |hops| && read == match rest case None => None case Some(more) => Some([hop] + more)
    requires hop != hops[i] || rest != Some(hops[i + 1..])
    ensures read != Some(hops[i..])
  {
    if rest.Some? {
      var all := [hop] + rest.value;
      assert all[0] == hop && all[1..] == rest.value;
      assert hops[i..][0] == hops[i] && hops[i..][1..] == hops[i + 1..];
    }
  }

  lemma {:induction false} MisreadsHere(hops: seq<Hop>, i: nat)
    requires NamesOk(hops) && Mistakable(hops, i + 1)
    ensures ReadPath(TextFrom(hops, i), i == 0) != Some(hops[i..])
  {
    var next := hops[i + 1].name;
    var tail := KeyText(hops[i + 1].key) + TextFrom(hops, i + 2);
    TextLikeKey(hops, i + 1);
    ReadWrong(hops[i], i == 0, next, tail);
    OtherReading(ReadPath(TextFrom(hops, i), i == 0), ReadPath(tail, false),
                 Hop(hops[i].name, Some(BitKey(next == "[true]"))), hops, i);
  }

  lemma {:induction false} MisreadsLater(hops: seq<Hop>, i: nat)
    requires NamesOk(hops) && i < |hops| && !Mistakable(hops, i + 1)
    requires ReadPath(TextFrom(hops, i + 1), false) != Some(hops[i + 1..])
    ensures ReadPath(TextFrom(hops, i), i == 0) != Some(hops[i..])
  {
    ReadStep(hops, i);
    OtherReading(ReadPath(TextFrom(hops, i), i == 0), ReadPath(TextFrom(hops, i + 1), false), hops[i], hops, i);
  }

  lemma {:induction false} MisreadsFrom(hops: seq<Hop>, i: nat, k: nat)
    requires NamesOk(hops) && i < k && Mistakable(hops, k)
    ensures ReadPath(TextFrom(hops, i), i == 0) != Some(hops[i..])
    decreases k - i
  {
    if Mistakable(hops, i + 1) {
      MisreadsHere(hops, i);
    } else {
      MisreadsFrom(hops, i + 1, k);
      MisreadsLater(hops, i);
    }
  }

  /** What a reading says of an element: its name, and its subscript's own value. */
  predicate Tells(hop: Hop, e: Element) {
    && hop.name == (match e.name case None => "" case Some(n) => n)
    && match (e.subscript, hop.key)
       case (None, None) => true
       case (Some(Index(n)), Some(NumberKey(i))) => i == n
       case (Some(UintKey(n)), Some(NumberKey(i))) => i == n
       case (Some(IntKey(k)), Some(NumberKey(i))) => i == k
       case (Some(BoolKey(b)), Some(BitKey(bit))) => bit == b
       case (Some(StringKey(t)), Some(TextKey(text))) => text == t
       case _ => false
  }

  predicate TellsAll(hops: seq<Hop>, es: seq<Element>) {
    |hops| == |es| && forall i :: 0 <= i < |es| ==> Tells(hops[i], es[i])
  }

  /** Every element has the name of a field or of an extension. */
  predicate Named(es: seq<Element>) {
    forall i :: 0 <= i < |es| ==> es[i].name.Some? && (Identifier(es[i].name.value) || ExtensionName(es[i].name.value))
  }

  /** No extension named like a boolean key follows an element without a key. */
  predicate Unmistakable(es: seq<Element>) {
    forall i :: 0 < i < |es| && es[i].name in {Some("[true]"), Some("[false]")} ==> es[i - 1].subscript.Some?
  }

  lemma {:induction false} TellsHops(hops: seq<Hop>, es: seq<Element>)
    ensures TellsAll(hops, es) <==> hops == HopsOf(es)
  {
  }

  lemma {:induction false} NamedHops(es: seq<Element>)
    requires Named(es)
    ensures NamesOk(HopsOf(es))
    ensures Unmistakable(es) <==> forall i :: 0 < i < |es| ==> !Mistakable(HopsOf(es), i)
  {
    forall i | 0 < i < |es|
      ensures Mistakable(HopsOf(es), i) <==>
              es[i].name in {Some("[true]"), Some("[false]")} && es[i - 1].subscript.None?
    {
      assert HopsOf(es)[i].name == es[i].name.value;
    }
  }

  /**
   The printed path determines its elements, up to the kind of an integer key, exactly
   when no extension named like a boolean key follows an element without a key.
   */
  lemma {:induction false} PathRead(es: seq<Element>)
    requires Named(es)
    ensures (exists hops :: ReadPath(PathText(es), true) == Some(hops) && TellsAll(hops, es)) <==> Unmistakable(es)
  {
    var hops := HopsOf(es);
    assert hops[0..] == hops;
    NamedHops(es);
    TellsHops(hops, es);
    if k :| 0 < k < |hops| && Mistakable(hops, k) {
      MisreadsFrom(hops, 0, k);
      forall read | TellsAll(read, es) ensures read == hops {
        TellsHops(read, es);
      }
    } else {
      ReadsFrom(hops, 0);
    }
  }

  function Whole(s: Subscript): Option<int> {
    match s
    case Index(n) => Some(n)
    case IntKey(i) => Some(i)
    case UintKey(n) => Some(n)
    case _ => None
  }

  /** The same name, and both without a subscript, or with the same integer, bit or text. */
  predicate Alike(d: Element, e: Element) {
    && d.name == e.name
    && match (d.subscript, e.subscript)
       case (None, None) => true
       case (Some(s), Some(t)) => s == t || (Whole(s).Some? && Whole(s) == Whole(t))
       case _ => false
  }

  lemma {:induction false} AlikeHops(d: Element, e: Element)
    requires d.name.Some? && e.name.Some?
    ensures Alike(d, e) <==> HopOf(d) == HopOf(e)
  {
  }

  lemma {:induction false} AlikePaths(a: seq<Element>, b: seq<Element>)
    requires Named(a) && Named(b)
    ensures HopsOf(a) == HopsOf(b) <==> |a| == |b| && forall i :: 0 <= i < |a| ==> Alike(a[i], b[i])
  {
    if |a| == |b| {
      forall i | 0 <= i < |a| ensures Alike(a[i], b[i]) <==> HopsOf(a)[i] == HopsOf(b)[i] {
        AlikeHops(a[i], b[i]);
      }
    }
  }

  lemma {:induction false} ReadBack(es: seq<Element>)
    requires Named(es) && Unmistakable(es)
    ensures ReadPath(PathText(es), true) == Some(HopsOf(es))
  {
    assert HopsOf(es)[0..] == HopsOf(es);
    NamedHops(es);
    ReadsFrom(HopsOf(es), 0);
  }

  /** Two such paths print alike exactly when their elements are alike. */
  lemma {:induction false} PathsDiffer(a: seq<Element>, b: seq<Element>)
    requires Named(a) && Unmistakable(a) && Named(b) && Unmistakable(b)
    ensures PathText(a) == PathText(b) <==> |a| == |b| && forall i :: 0 <= i < |a| ==> Alike(a[i], b[i])
  {
    ReadBack(a);
    ReadBack(b);
    AlikePaths(a, b);
  }

  function At(name: string, subscript: Option<Subscript>): Element {
    Element(None, Some(name), None, None, None, subscript)
  }

  /** An extension that is named like a boolean key prints like one. */
  lemma {:induction false} BareTrueIsAmbiguous()
    ensures PathText([At("a", None), At("[true]", None)]) == PathText([At("a", Some(BoolKey(true)))]) == "a[true]"
  {
    var two, one := [Hop("a", None), Hop("[true]", None)], [Hop("a", Some(BitKey(true)))];
    assert HopsOf([At("a", None), At("[true]", None)]) == two && HopsOf([At("a", Some(BoolKey(true)))]) == one;
    assert TextFrom(two, 2) == [] && TextFrom(one, 1) == [];
    assert TextFrom(two, 1) == "[true]";
    assert KeyText(Some(BitKey(true))) == "[true]";
  }
}
