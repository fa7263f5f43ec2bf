/** The text that `json.dumps` gives for a list of pairs of strings, with its default
    options (ASCII output), as in app/scraper/normalizer.py. */
module JsonText {
  import opened Sequences
  import opened Splitting

  function Hex(n: nat): char
    requires n < 16
  {
    "0123456789abcdef"[n]
  }

  function Hex4(n: nat): (r: string)
    requires n < 0x10000
    ensures |r| == 4
  {
    [Hex(n / 4096), Hex(n / 256 % 16), Hex(n / 16 % 16), Hex(n % 16)]
  }

  function Unit(n: nat): (r: string)
    requires n < 0x10000
    ensures |r| == 6
  {
    "\\u" + Hex4(n)
  }

  function High(n: nat): nat
    requires 0x10000 <= n < 0x110000
  {
    0xD800 + (n - 0x10000) / 0x400
  }

  function Low(n: nat): nat { 0xDC00 + n % 0x400 }

  /** The two-character escapes. */
  function Short(c: char): char {
    match c
    case '\n' => 'n'
    case '\r' => 'r'
    case '\t' => 't'
    case '\U{08}' => 'b'
    case '\U{0C}' => 'f'
    case _ => c
  }

  predicate HasShort(c: char) { c in "\"\\\n\r\t\U{08}\U{0C}" }

  predicate Plain(c: char) { ' ' <= c <= '~' && !HasShort(c) }

  function Escape(c: char): (r: string)
    ensures r != []
  {
    if Plain(c) then [c]
    else if HasShort(c) then ['\\', Short(c)]
    else if c as int < 0x10000 then Unit(c as int)
    else Unit(High(c as int)) + Unit(Low(c as int))
  }

  function EscapeAll(s: string): string { if s == [] then [] else Escape(s[0]) + EscapeAll(s[1..]) }

  function Quote(s: string): string { "\"" + (EscapeAll(s) + "\"") }

  datatype Pair = Pair(name: string, value: string)

  function PairText(p: Pair): string { "[" + (Quote(p.name) + (", " + (Quote(p.value) + "]"))) }

  /** The items of a list from here on, up to the closing bracket. */
  function Items(ps: seq<Pair>): string {
    if ps == [] then "]"
    else PairText(ps[0]) + (if |ps| == 1 then "]" else ", " + Items(ps[1..]))
  }

  function PairsText(ps: seq<Pair>): string { "[" + Items(ps) }

  // ---------------------------------------------------------- unique reading

  lemma HexInjective(a: nat, b: nat)
    requires a < 16 && b < 16 && Hex(a) == Hex(b)
    ensures a == b
  {
  }

  lemma Digits4(n: nat)
    requires n < 0x10000
    ensures n == n / 4096 * 4096 + n / 256 % 16 * 256 + n / 16 % 16 * 16 + n % 16
  {
    var a, b, c := n / 16, n / 256, n / 4096;
    assert b == a / 16 && c == b / 16;
  }

  lemma UnitInjective(a: nat, b: nat, x: string, y: string)
    requires a < 0x10000 && b < 0x10000 && Unit(a) + x == Unit(b) + y
    ensures a == b && x == y
  {
    var s, t := Unit(a) + x, Unit(b) + y;
    assert s[..6] == Unit(a) && t[..6] == Unit(b) && s[6..] == x && t[6..] == y;
    assert Hex4(a) == Unit(a)[2..] && Hex4(b) == Unit(b)[2..];
    SameHex4(a, b);
  }

  lemma SameHex4(a: nat, b: nat)
    requires a < 0x10000 && b < 0x10000 && Hex4(a) == Hex4(b)
    ensures a == b
  {
    var s, t := Hex4(a), Hex4(b);
    assert s[0] == t[0] && s[1] == t[1] && s[2] == t[2] && s[3] == t[3];
    HexInjective(a / 4096, b / 4096);
    HexInjective(a / 256 % 16, b / 256 % 16);
    HexInjective(a / 16 % 16, b / 16 % 16);
    HexInjective(a % 16, b % 16);
    Digits4(a);
    Digits4(b);
  }

  /** How an escape begins. */
  datatype Lead = Itself(c: char) | Two(c: char) | Units

  function LeadOf(c: char): Lead {
    if Plain(c) then Itself(c) else if HasShort(c) then Two(Short(c)) else Units
  }

  lemma LeadRead(c: char, x: string)
    ensures var s := Escape(c) + x;
      match LeadOf(c)
      case Itself(d) => s[0] == d && d != '\\' && d != '"'
      case Two(d) => |s| >= 2 && s[0] == '\\' && s[1] == d && d != 'u'
      case Units => |s| >= 6 && s[0] == '\\' && s[1] == 'u'
  {
  }

  lemma ShortInjective(c: char, d: char)
    requires HasShort(c) && HasShort(d) && Short(c) == Short(d)
    ensures c == d
  {
  }

  lemma SurrogatePair(m: nat, n: nat)
    requires 0x10000 <= m < 0x110000 && 0x10000 <= n < 0x110000
    requires High(m) == High(n) && Low(m) == Low(n)
    ensures m == n
  {
    assert m == m / 0x400 * 0x400 + m % 0x400 && n == n / 0x400 * 0x400 + n % 0x400;
    assert (m - 0x10000) / 0x400 == m / 0x400 - 0x40 && (n - 0x10000) / 0x400 == n / 0x400 - 0x40;
  }

  /** The first unit of an escape, and what follows it. */
  function FirstUnit(n: nat): nat
    requires n < 0x110000
  {
    if n < 0x10000 then n else High(n)
  }

  function AfterUnit(n: nat, x: string): string
    requires n < 0x110000
  {
    if n < 0x10000 then x else Unit(Low(n)) + x
  }

  lemma UnitsRead(c: char, x: string)
    requires LeadOf(c).Units?
    ensures Escape(c) + x == Unit(FirstUnit(c as int)) + AfterUnit(c as int, x)
  {
    var n := c as int;
    if n >= 0x10000 {
      var u, v := Unit(High(n)), Unit(Low(n));
      Regroup(u, v, x);
    }
  }

  lemma UnitsInjective(c: char, d: char, x: string, y: string)
    requires LeadOf(c).Units? && LeadOf(d).Units? && Escape(c) + x == Escape(d) + y
    ensures c == d && x == y
  {
    var m, n := c as int, d as int;
    UnitsRead(c, x);
    UnitsRead(d, y);
    UnitInjective(FirstUnit(m), FirstUnit(n), AfterUnit(m, x), AfterUnit(n, y));
    if m >= 0x10000 && n >= 0x10000 {
      UnitInjective(Low(m), Low(n), x, y);
      SurrogatePair(m, n);
    }
  }

  /** The first escape of a text can be told from what follows it. */
  lemma EscapeInjective(c: char, d: char, x: string, y: string)
    requires Escape(c) + x == Escape(d) + y
    ensures c == d && x == y
  {
    LeadRead(c, x);
    LeadRead(d, y);
    assert LeadOf(c) == LeadOf(d);
    match LeadOf(c)
    case Itself(_) =>
      assert (Escape(c) + x)[1..] == x && (Escape(d) + y)[1..] == y;
    case Two(_) =>
      ShortInjective(c, d);
      assert (Escape(c) + x)[2..] == x && (Escape(d) + y)[2..] == y;
    case Units =>
      UnitsInjective(c, d, x, y);
  }

  /** A quoted text from its first character on, followed by `x`. */
  function Tail(s: string, x: string): string {
    if s == [] then "\"" + x else Escape(s[0]) + Tail(s[1..], x)
  }

  lemma {:induction false} TailIs(s: string, x: string)
    ensures Tail(s, x) == EscapeAll(s) + ("\"" + x)
  {
    if s == [] {
      assert EscapeAll(s) == [];
    } else {
      TailIs(s[1..], x);
      Regroup(Escape(s[0]), EscapeAll(s[1..]), "\"" + x);
    }
  }

  lemma {:induction false} TailInjective(s: string, t: string, x: string, y: string)
    requires Tail(s, x) == Tail(t, y)
    ensures s == t && x == y
  {
    if s != [] && t != [] {
      EscapeInjective(s[0], t[0], Tail(s[1..], x), Tail(t[1..], y));
      TailInjective(s[1..], t[1..], x, y);
      assert s == [s[0]] + s[1..] && t == [t[0]] + t[1..];
    } else if s != [] {
      LeadRead(s[0], Tail(s[1..], x));
    } else if t != [] {
      LeadRead(t[0], Tail(t[1..], y));
    } else {
      assert Tail(s, x)[1..] == x && Tail(t, y)[1..] == y;
    }
  }

  lemma QuoteTail(s: string, x: string)
    ensures Quote(s) + x == "\"" + Tail(s, x)
  {
    TailIs(s, x);
    QuoteParts(EscapeAll(s), x);
  }

  lemma QuoteParts(e: string, x: string)
    ensures "\"" + (e + "\"") + x == "\"" + (e + ("\"" + x))
  {
  }

  lemma Behind(a: string, x: string, y: string)
    requires a + x == a + y
    ensures x == y
  {
    assert (a + x)[|a|..] == x && (a + y)[|a|..] == y;
  }

  /** A quoted string can be told from what follows it. */
  lemma QuoteInjective(s: string, t: string, x: string, y: string)
    requires Quote(s) + x == Quote(t) + y
    ensures s == t && x == y
  {
    QuoteTail(s, x);
    QuoteTail(t, y);
    Behind("\"", Tail(s, x), Tail(t, y));
    TailInjective(s, t, x, y);
  }

  lemma PairParts(p: Pair, x: string)
    ensures PairText(p) + x == "[" + (Quote(p.name) + (", " + (Quote(p.value) + ("]" + x))))
  {
    var a, b := Quote(p.name), Quote(p.value);
    assert "[" + (a + (", " + (b + "]"))) + x == "[" + (a + (", " + (b + ("]" + x))));
  }

  lemma PairInjective(p: Pair, q: Pair, x: string, y: string)
    requires PairText(p) + x == PairText(q) + y
    ensures p == q && x == y
  {
    PairParts(p, x);
    PairParts(q, y);
    var u, v := Quote(p.value) + ("]" + x), Quote(q.value) + ("]" + y);
    Behind("[", Quote(p.name) + (", " + u), Quote(q.name) + (", " + v));
    QuoteInjective(p.name, q.name, ", " + u, ", " + v);
    Behind(", ", u, v);
    QuoteInjective(p.value, q.value, "]" + x, "]" + y);
    Behind("]", x, y);
  }

  /** What follows the first item of a list. */
  function More(ps: seq<Pair>): string
    requires ps != []
  {
    if |ps| == 1 then "]" else ", " + Items(ps[1..])
  }

  lemma MoreStarts(ps: seq<Pair>)
    requires ps != []
    ensures More(ps) != [] && More(ps)[0] == if |ps| == 1 then ']' else ','
  {
  }

  lemma ItemsRead(ps: seq<Pair>)
    requires ps != []
    ensures Items(ps) == PairText(ps[0]) + More(ps) && Items(ps) != "]"
  {
    assert PairText(ps[0])[0] == '[';
    assert (PairText(ps[0]) + More(ps))[0] == '[';
  }

  lemma {:induction false} ItemsInjective(ps: seq<Pair>, qs: seq<Pair>)
    requires Items(ps) == Items(qs)
    ensures ps == qs
    decreases ps, 1
  {
    if ps == [] {
      if qs != [] {
        ItemsRead(qs);
      }
    } else if qs == [] {
      ItemsRead(ps);
    } else {
      ItemsRead(ps);
      ItemsRead(qs);
      PairInjective(ps[0], qs[0], More(ps), More(qs));
      MoreStarts(ps);
      MoreStarts(qs);
      MoreInjective(ps, qs);
    }
  }

  lemma {:induction false} MoreInjective(ps: seq<Pair>, qs: seq<Pair>)
    requires ps != [] && qs != [] && ps[0] == qs[0] && More(ps) == More(qs) && (|ps| == 1 <==> |qs| == 1)
    ensures ps == qs
    decreases ps, 0
  {
    if |ps| > 1 {
      Behind(", ", Items(ps[1..]), Items(qs[1..]));
      ItemsInjective(ps[1..], qs[1..]);
    }
    assert ps == [ps[0]] + ps[1..] && qs == [qs[0]] + qs[1..];
  }

  /** Different lists of pairs have different texts. */
  lemma PairsInjective(ps: seq<Pair>, qs: seq<Pair>)
    requires PairsText(ps) == PairsText(qs)
    ensures ps == qs
  {
    Behind("[", Items(ps), Items(qs));
    ItemsInjective(ps, qs);
  }

  // ------------------------------------------------------- printable output

  predicate Printable(s: string) { forall k :: 0 <= k < |s| ==> ' ' <= s[k] <= '~' }

  lemma PrintableConcat(a: string, b: string)
    requires Printable(a) && Printable(b)
    ensures Printable(a + b)
  {
  }

  lemma UnitPrintable(n: nat)
    requires n < 0x10000
    ensures Printable(Unit(n))
  {
    assert forall d: nat :: d < 16 ==> '0' <= Hex(d) <= 'f';
    PrintableConcat("\\u", Hex4(n));
  }

  lemma EscapePrintable(c: char)
    ensures Printable(Escape(c))
  {
    var n := c as int;
    if !Plain(c) && !HasShort(c) {
      if n < 0x10000 {
        UnitPrintable(n);
      } else {
        UnitPrintable(High(n));
        UnitPrintable(Low(n));
        PrintableConcat(Unit(High(n)), Unit(Low(n)));
      }
    }
  }

  lemma {:induction false} EscapeAllPrintable(s: string)
    ensures Printable(EscapeAll(s))
  {
    if s != [] {
      EscapePrintable(s[0]);
      EscapeAllPrintable(s[1..]);
      PrintableConcat(Escape(s[0]), EscapeAll(s[1..]));
    }
  }

  lemma QuotePrintable(s: string)
    ensures Printable(Quote(s))
  {
    EscapeAllPrintable(s);
    PrintableConcat(EscapeAll(s), "\"");
    PrintableConcat("\"", EscapeAll(s) + "\"");
  }

  lemma PairPrintable(p: Pair)
    ensures Printable(PairText(p))
  {
    var a, b := Quote(p.name), Quote(p.value);
    QuotePrintable(p.name);
    QuotePrintable(p.value);
    PrintableConcat(b, "]");
    PrintableConcat(", ", b + "]");
    PrintableConcat(a, ", " + (b + "]"));
    PrintableConcat("[", a + (", " + (b + "]")));
  }

  lemma {:induction false} ItemsPrintable(ps: seq<Pair>)
    ensures Printable(Items(ps))
  {
    if ps != [] {
      PairPrintable(ps[0]);
      ItemsPrintable(ps[1..]);
      PrintableConcat(", ", Items(ps[1..]));
      PrintableConcat(PairText(ps[0]), More(ps));
    }
  }

  /** The text is printable ASCII: it has no line breaks. */
  lemma PairsPrintable(ps: seq<Pair>)
    ensures Printable(PairsText(ps))
  {
    ItemsPrintable(ps);
    PrintableConcat("[", Items(ps));
  }

  // ------------------------------------------------------------- the escapes

  /** The value of a hexadecimal digit in lower case. */
  function HexValue(d: char): int { if '0' <= d <= '9' then d as int - '0' as int else d as int - 'a' as int + 10 }

  /** `\\u` and the four digits of `n`. */
  predicate Writes(s: string, n: int) {
    && |s| == 6 && s[0] == '\\' && s[1] == 'u'
    && (forall k :: 2 <= k < 6 ==> '0' <= s[k] <= '9' || 'a' <= s[k] <= 'f')
    && HexValue(s[2]) * 4096 + HexValue(s[3]) * 256 + HexValue(s[4]) * 16 + HexValue(s[5]) == n
  }

  lemma HexReads(n: nat)
    requires n < 16
    ensures HexValue(Hex(n)) == n && ('0' <= Hex(n) <= '9' || 'a' <= Hex(n) <= 'f')
  {
  }

  lemma UnitWrites(n: nat)
    requires n < 0x10000
    ensures Writes(Unit(n), n)
  {
    HexReads(n / 4096);
    HexReads(n / 256 % 16);
    HexReads(n / 16 % 16);
    HexReads(n % 16);
    Digits4(n);
    var u, h := Unit(n), Hex4(n);
    assert u[2..] == h && forall k :: 2 <= k < 6 ==> u[k] == h[k - 2];
  }

  /** The UTF-16 units of a character beyond the first plane. */
  predicate WritesPair(e: string, n: int)
    requires 0x10000 <= n
  {
    |e| == 12 && Writes(e[..6], 0xD800 + (n - 0x10000) / 1024) && Writes(e[6..], 0xDC00 + (n - 0x10000) % 1024)
  }

  lemma PairWrites(n: nat)
    requires 0x10000 <= n < 0x110000
    ensures WritesPair(Unit(High(n)) + Unit(Low(n)), n)
  {
    UnitWrites(High(n));
    UnitWrites(Low(n));
    Halves(Unit(High(n)), Unit(Low(n)));
    SurrogatesAre(n);
  }

  lemma SurrogatesAre(n: nat)
    requires 0x10000 <= n < 0x110000
    ensures High(n) == 0xD800 + (n - 0x10000) / 1024 && Low(n) == 0xDC00 + (n - 0x10000) % 1024
  {
    var m := n - 0x10000;
    assert n == 64 * 1024 + m;
  }

  lemma Halves(a: string, b: string)
    requires |a| == 6
    ensures (a + b)[..6] == a && (a + b)[6..] == b
  {
  }

  /** Printable ASCII but for quote and backslash is written as it is, and what has no escape
      of two characters by its UTF-16 units in hexadecimal. */
  lemma EscapesAre(c: char)
    requires c !in "\"\\\n\r\t\U{08}\U{0C}"
    ensures if 32 <= c as int <= 126 then Escape(c) == [c]
            else if c as int < 0x10000 then Writes(Escape(c), c as int)
            else WritesPair(Escape(c), c as int)
  {
    if c as int < 32 || c as int > 126 {
      if c as int < 0x10000 {
        UnitWrites(c as int);
      } else {
        PairWrites(c as int);
      }
    }
  }

  /** The escapes of two characters. */
  lemma ShortEscapes()
    ensures Escape('"') == "\\\"" && Escape('\\') == "\\\\" && Escape('\n') == "\\n" && Escape('\r') == "\\r"
    ensures Escape('\t') == "\\t" && Escape('\U{08}') == "\\b" && Escape('\U{0C}') == "\\f"
  {
  }

  /** A list of pairs as `json.dumps` lays it out. */
  lemma Layout(p: Pair, q: Pair)
    ensures PairsText([]) == "[" + "]" && PairsText([p]) == "[" + (PairText(p) + "]")
    ensures PairText(p) == "[" + (Quote(p.name) + (", " + (Quote(p.value) + "]")))
    ensures PairsText([p, q]) == "[" + (PairText(p) + (", " + (PairText(q) + "]")))
    ensures Quote("") == "\"" + "\""
  {
    assert [p, q][1..] == [q];
    assert Items([q]) == PairText(q) + "]";
    assert Items([p, q]) == PairText(p) + (", " + Items([q]));
  }
}
