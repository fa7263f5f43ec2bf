/** `_resolve_srcset` (app/scraper/html_normalizer.py): the URLs of a comma-separated list
    resolved one by one, and when doing it again changes nothing. */
module Srcset {
  import opened Sequences
  import opened Text
  import opened Splitting

  /** The stripped pieces that are not empty. */
  function NonBlank(pieces: seq<string>): seq<string> {
    if pieces == [] then []
    else (if Strip(pieces[0]) == "" then [] else [Strip(pieces[0])]) + NonBlank(pieces[1..])
  }

  function Entries(s: string): seq<string> { NonBlank(Split(s, ',')) }

  /** `entry.split(None, 1)`: the URL and the descriptor of a stripped entry. */
  function UrlOf(entry: string): string { entry[..WordLength(entry)] }

  function DescriptorOf(entry: string): string { DropSpaces(entry[WordLength(entry)..]) }

  function WithDescriptor(url: string, descriptor: string): string {
    if descriptor == "" then url else url + (" " + descriptor)
  }

  function ResolveEntry(entry: string, join: string -> string): string {
    WithDescriptor(join(UrlOf(entry)), DescriptorOf(entry))
  }

  function ResolveAll(entries: seq<string>, join: string -> string): (r: seq<string>)
    ensures |r| == |entries|
    ensures forall k :: 0 <= k < |r| ==> r[k] == ResolveEntry(entries[k], join)
  {
    if entries == [] then [] else [ResolveEntry(entries[0], join)] + ResolveAll(entries[1..], join)
  }

  function Resolve(s: string, join: string -> string): string { Join(ResolveAll(Entries(s), join), ", ") }

  /** The loop over the pieces. */
  method ResolveSrcset(s: string, join: string -> string) returns (r: string)
    ensures r == Resolve(s, join)
  {
    var pieces := Split(s, ',');
    var entries: seq<string> := [];
    for k := 0 to |pieces|
      invariant entries + ResolveAll(NonBlank(pieces[k..]), join) == ResolveAll(Entries(s), join)
    {
      var entry := Strip(pieces[k]);
      ResolveCons(pieces, k, join);
      if entry == "" {
        continue;
      }
      Regroup(entries, [ResolveEntry(entry, join)], ResolveAll(NonBlank(pieces[k + 1..]), join));
      var url, descriptor := UrlOf(entry), DescriptorOf(entry);
      var resolved := if descriptor != "" then join(url) + (" " + descriptor) else join(url);
      entries := entries + [resolved];
    }
    assert entries + [] == entries;
    return Join(entries, ", ");
  }

  lemma ResolveCons(pieces: seq<string>, k: nat, join: string -> string)
    requires k < |pieces|
    ensures var rest := ResolveAll(NonBlank(pieces[k + 1..]), join);
      ResolveAll(NonBlank(pieces[k..]), join)
      == if Strip(pieces[k]) == "" then rest else [ResolveEntry(Strip(pieces[k]), join)] + rest
  {
    assert pieces[k..][1..] == pieces[k + 1..];
    var rest := NonBlank(pieces[k + 1..]);
    if Strip(pieces[k]) == "" {
      assert [] + rest == rest;
    } else {
      assert ([Strip(pieces[k])] + rest)[1..] == rest;
    }
  }

  // ---------------------------------------------------------------- entries

  /** Without outer whitespace and commas. */
  predicate Descriptor(d: string) { Trimmed(d) && ',' !in d }

  predicate EntryText(e: string) { e != "" && Trimmed(e) && ',' !in e }

  lemma StripFree(p: string)
    requires ',' !in p
    ensures ',' !in Strip(p)
  {
    DropSuffix(p);
    StripRightPrefix(DropSpaces(p));
    assert forall k :: 0 <= k < |DropSpaces(p)| ==> DropSpaces(p)[k] in p;
    assert forall k :: 0 <= k < |Strip(p)| ==> Strip(p)[k] in DropSpaces(p);
  }

  lemma {:induction false} NonBlankShape(pieces: seq<string>)
    requires forall p :: p in pieces ==> ',' !in p
    ensures forall e :: e in NonBlank(pieces) ==> EntryText(e)
  {
    if pieces != [] {
      NonBlankShape(pieces[1..]);
      assert pieces[0] in pieces;
      StripFree(pieces[0]);
      StripTrims(pieces[0]);
      assert Trimmed(Strip(pieces[0]));
    }
  }

  lemma EntriesShape(s: string)
    ensures forall e :: e in Entries(s) ==> EntryText(e)
  {
    SplitFree(s, ',');
    NonBlankShape(Split(s, ','));
  }

  /** A stripped entry is a URL without whitespace and a descriptor. */
  lemma EntryParts(e: string)
    requires EntryText(e)
    ensures Word(UrlOf(e)) && Descriptor(DescriptorOf(e))
  {
    var n := WordLength(e);
    var rest := e[n..];
    DropSuffix(rest);
    assert forall k :: 0 <= k < |DropSpaces(rest)| ==> DropSpaces(rest)[k] in e;
    if DropSpaces(rest) != "" {
      assert DropSpaces(rest)[|DropSpaces(rest)| - 1] == e[|e| - 1];
    }
  }

  /** A URL without whitespace and a descriptor are read back. */
  lemma PartsRead(url: string, d: string)
    requires Word(url) && Descriptor(d)
    ensures UrlOf(WithDescriptor(url, d)) == url && DescriptorOf(WithDescriptor(url, d)) == d
    ensures WithDescriptor(url, d) != "" && Trimmed(WithDescriptor(url, d))
  {
    if d == "" {
      WordLengthIs(url, "");
      assert url + "" == url;
    } else {
      var e := url + (" " + d);
      WordLengthIs(url, " " + d);
      assert e[..|url|] == url && e[|url|..] == " " + d;
      assert (" " + d)[1..] == d && DropSpaces(d) == d;
      assert e[|e| - 1] == d[|d| - 1];
    }
  }

  lemma DescriptorCancels(a: string, b: string, d: string)
    requires WithDescriptor(a, d) == WithDescriptor(b, d)
    ensures a == b
  {
    var x, y := WithDescriptor(a, d), WithDescriptor(b, d);
    assert |a| == |b|;
    assert x[..|a|] == a && y[..|b|] == b;
  }

  // ------------------------------------------------------------ joined lists

  function Total(es: seq<string>): nat { if es == [] then 0 else Count(es[0], ',') + Total(es[1..]) }

  lemma JoinMore(es: seq<string>)
    requires |es| > 1
    ensures Join(es, ", ") == es[0] + ("," + (" " + Join(es[1..], ", ")))
  {
    assert ", " + Join(es[1..], ", ") == "," + (" " + Join(es[1..], ", "));
  }

  /** The commas of a joined list are those between entries and those inside. */
  lemma {:induction false} CountJoin(es: seq<string>)
    requires es != []
    ensures Count(Join(es, ", "), ',') == |es| - 1 + Total(es)
  {
    if |es| > 1 {
      var t := Join(es[1..], ", ");
      CountJoin(es[1..]);
      JoinMore(es);
      CountConcat(es[0], "," + (" " + t), ',');
      CountConcat(",", " " + t, ',');
      CountConcat(" ", t, ',');
    }
  }

  lemma {:induction false} TotalNone(es: seq<string>)
    ensures Total(es) == 0 <==> forall e :: e in es ==> ',' !in e
  {
    if es != [] {
      TotalNone(es[1..]);
      CountNone(es[0], ',');
      assert es == [es[0]] + es[1..];
    }
  }

  function Spaced(es: seq<string>): seq<string> { if es == [] then [] else [" " + es[0]] + Spaced(es[1..]) }

  /** Entries without commas are split off one by one. */
  lemma {:induction false} SplitJoined(es: seq<string>)
    requires es != [] && forall e :: e in es ==> ',' !in e
    ensures Split(Join(es, ", "), ',') == [es[0]] + Spaced(es[1..])
  {
    assert es[0] in es;
    if |es| == 1 {
      SplitOfPiece(es[0], "", ',');
    } else {
      var t := Join(es[1..], ", ");
      JoinMore(es);
      SplitOfPiece(es[0], " " + t, ',');
      SplitPrefix(" ", t, ',');
      SplitJoined(es[1..]);
      assert ([es[1]] + Spaced(es[2..]))[1..] == Spaced(es[2..]);
      assert es[1..][1..] == es[2..];
    }
  }

  lemma StripSpaced(e: string)
    requires Trimmed(e) && e != ""
    ensures Strip(" " + e) == e && Strip(e) == e
  {
    StripTrims(e);
    assert (" " + e)[1..] == e;
    assert DropSpaces(e) == e;
  }

  lemma {:induction false} NonBlankSpaced(es: seq<string>)
    requires forall e :: e in es ==> EntryText(e)
    ensures NonBlank(Spaced(es)) == es
  {
    if es != [] {
      assert es[0] in es;
      StripSpaced(es[0]);
      NonBlankSpaced(es[1..]);
    }
  }

  /** Entries without commas are read back from their list. */
  lemma EntriesOfJoined(es: seq<string>)
    requires forall e :: e in es ==> EntryText(e)
    ensures Entries(Join(es, ", ")) == es
  {
    if es == [] {
      StripTrims("");
      assert Split("", ',')[1..] == [];
    } else {
      SplitJoined(es);
      assert es[0] in es;
      StripSpaced(es[0]);
      NonBlankSpaced(es[1..]);
      var ps := [es[0]] + Spaced(es[1..]);
      assert ps[1..] == Spaced(es[1..]);
    }
  }

  // ------------------------------------------------------- commas inside URLs

  /** A URL without whitespace whose commas are single and inside, as resolved ones are. */
  predicate Whole(url: string) { Word(url) && forall p :: p in Split(url, ',') ==> p != "" }

  /** Some comma is not followed by a space. */
  ghost predicate Tight(s: string) { exists k :: TightAt(s, k) }

  predicate TightAt(s: string, k: int) { 0 <= k && k + 1 < |s| && s[k] == ',' && s[k + 1] != ' ' }

  lemma TightPart(a: string, b: string, c: string)
    requires Tight(b)
    ensures Tight(a + (b + c))
  {
    var k :| TightAt(b, k);
    assert (b + c)[k] == b[k] && (b + c)[k + 1] == b[k + 1];
    assert TightAt(a + (b + c), |a| + k);
  }

  lemma WholeTight(url: string)
    requires Whole(url) && ',' in url
    ensures Tight(url)
  {
    var k :| 0 <= k < |url| && url[k] == ',';
    assert url == url[..k] + ("," + url[k + 1..]);
    SplitConcat(url[..k], url[k + 1..], ',');
    var rest := Split(url[k + 1..], ',');
    assert rest[0] in Split(url, ',');
    assert forall t :: t == "" ==> Split(t, ',')[0] == "";
    assert TightAt(url, k);
  }

  lemma {:induction false} TightEntry(es: seq<string>, i: nat)
    requires i < |es| && Tight(es[i])
    ensures Tight(Join(es, ", "))
  {
    if |es| == 1 {
    } else if i == 0 {
      JoinMore(es);
      var rest := "," + (" " + Join(es[1..], ", "));
      TightPart("", es[0], rest);
      assert "" + (es[0] + rest) == es[0] + rest;
    } else {
      JoinMore(es);
      TightEntry(es[1..], i - 1);
      var t := Join(es[1..], ", ");
      TightPart(es[0] + ", ", t, "");
      assert (es[0] + ", ") + (t + "") == es[0] + ("," + (" " + t));
    }
  }

  /** In a list of entries without commas every comma is followed by a space. */
  lemma {:induction false} LooseJoin(es: seq<string>)
    requires forall e :: e in es ==> ',' !in e
    ensures !Tight(Join(es, ", "))
  {
    if |es| == 1 {
      assert es[0] in es;
    } else if |es| > 1 {
      assert es[0] in es;
      LooseJoin(es[1..]);
      JoinMore(es);
      LooseMore(es[0], Join(es[1..], ", "));
    }
  }

  lemma LooseMore(e: string, t: string)
    requires ',' !in e && !Tight(t)
    ensures !Tight(e + ("," + (" " + t)))
  {
    var s := e + ("," + (" " + t));
    assert forall k :: 0 <= k < |e| ==> s[k] == e[k] && s[k] in e;
    assert forall k :: 0 <= k < |t| ==> s[|e| + 2 + k] == t[k];
    assert s[|e| + 1] == ' ';
    forall k | TightAt(s, k)
      ensures TightAt(t, k - |e| - 2)
    {
    }
  }

  // -------------------------------------------------------- pieces all counted

  predicate AllSolid(ps: seq<string>) { forall k :: 0 <= k < |ps| ==> !Blank(ps[k]) }

  lemma {:induction false} NonBlankAll(ps: seq<string>)
    requires AllSolid(ps)
    ensures |NonBlank(ps)| == |ps|
  {
    if ps != [] {
      StripTrims(ps[0]);
      NonBlankAll(ps[1..]);
    }
  }

  lemma {:induction false} PieceChars(s: string, c: char, p: string, k: nat)
    requires p in Split(s, c) && k < |p|
    ensures p[k] in s
  {
    if s != "" {
      var rest := Split(s[1..], c);
      assert s == [s[0]] + s[1..];
      if s[0] == c {
        if p != "" {
          assert p in rest;
          PieceChars(s[1..], c, p, k);
        }
      } else if p == [s[0]] + rest[0] {
        if k > 0 {
          PieceChars(s[1..], c, rest[0], k - 1);
        }
      } else {
        assert p in rest[1..] && p in rest;
        PieceChars(s[1..], c, p, k);
      }
    }
  }

  lemma WholeSolid(url: string)
    requires Whole(url)
    ensures AllSolid(Split(url, ','))
  {
    var ps := Split(url, ',');
    forall k | 0 <= k < |ps|
      ensures !Blank(ps[k])
    {
      assert ps[k] in ps;
      PieceChars(url, ',', ps[k], 0);
      var j :| 0 <= j < |url| && url[j] == ps[k][0];
    }
  }

  /** A text behind the last piece. */
  function Appended(ps: seq<string>, b: string): seq<string>
    requires ps != []
  {
    ps[..|ps| - 1] + [ps[|ps| - 1] + b]
  }

  lemma AppendedCons(p: string, ps: seq<string>, b: string)
    requires ps != []
    ensures Appended([p] + ps, b) == [p] + Appended(ps, b)
  {
    assert ([p] + ps)[..|ps|] == [p] + ps[..|ps| - 1];
  }

  lemma AppendedGrown(p: string, ps: seq<string>, b: string)
    requires ps != []
    ensures Appended(Grown(p, ps), b) == Grown(p, Appended(ps, b))
  {
    if |ps| == 1 {
      assert (p + ps[0]) + b == p + (ps[0] + b);
    } else {
      assert Grown(p, ps)[..|ps| - 1] == [p + ps[0]] + ps[1..|ps| - 1];
      assert Appended(ps, b)[1..] == ps[1..|ps| - 1] + [ps[|ps| - 1] + b];
    }
  }

  /** A text without the separator behind belongs to the last piece. */
  lemma {:induction false} SplitSuffix(a: string, b: string, c: char)
    requires c !in b
    ensures Split(a + b, c) == Appended(Split(a, c), b)
  {
    if a == "" {
      assert a + b == b && "" + b == b;
      SplitOfPiece(b, "", c);
    } else {
      assert (a + b)[0] == a[0] && (a + b)[1..] == a[1..] + b;
      SplitSuffix(a[1..], b, c);
      if a[0] == c {
        AppendedCons("", Split(a[1..], c), b);
      } else {
        AppendedGrown([a[0]], Split(a[1..], c), b);
      }
    }
  }

  lemma EntrySolid(url: string, d: string)
    requires Whole(url) && Descriptor(d)
    ensures AllSolid(Split(WithDescriptor(url, d), ','))
  {
    WholeSolid(url);
    if d != "" {
      SplitSuffix(url, " " + d, ',');
      var ps := Split(url, ',');
      BlankPart(ps[|ps| - 1], " " + d);
    }
  }

  lemma BlankPart(p: string, d: string)
    requires !Blank(p)
    ensures !Blank(p + d) && !Blank(d + p)
  {
    var k :| 0 <= k < |p| && !IsSpace(p[k]);
    assert (p + d)[k] == p[k] && (d + p)[|d| + k] == p[k];
  }

  lemma {:induction false} JoinSolid(es: seq<string>)
    requires es != [] && forall e :: e in es ==> AllSolid(Split(e, ','))
    ensures AllSolid(Split(Join(es, ", "), ','))
  {
    assert es[0] in es;
    if |es| > 1 {
      var t := Join(es[1..], ", ");
      JoinSolid(es[1..]);
      JoinMore(es);
      SplitConcat(es[0], " " + t, ',');
      SplitPrefix(" ", t, ',');
      BlankPart(Split(t, ',')[0], " ");
    }
  }

  // ------------------------------------------------------------- main results

  /** The URLs that a list resolves to. */
  predicate ResolvesWhole(s: string, join: string -> string) {
    forall e :: e in Entries(s) ==> Whole(join(UrlOf(e)))
  }

  /** Every URL resolves to one without a comma that resolves to itself. */
  predicate Steady(s: string, join: string -> string) {
    forall e :: e in Entries(s) ==> ',' !in join(UrlOf(e)) && join(join(UrlOf(e))) == join(UrlOf(e))
  }

  /** The resolved entries in parts. */
  lemma ResolvedParts(s: string, join: string -> string, k: nat)
    requires ResolvesWhole(s, join) && k < |Entries(s)|
    ensures var e := Entries(s)[k];
      var x := ResolveAll(Entries(s), join)[k];
      && x == WithDescriptor(join(UrlOf(e)), DescriptorOf(e)) && Whole(join(UrlOf(e))) && Descriptor(DescriptorOf(e))
      && UrlOf(x) == join(UrlOf(e)) && DescriptorOf(x) == DescriptorOf(e)
      && x != "" && Trimmed(x) && AllSolid(Split(x, ','))
      && (',' in x <==> ',' in join(UrlOf(e)))
  {
    var e := Entries(s)[k];
    EntriesShape(s);
    assert e in Entries(s);
    EntryParts(e);
    PartsRead(join(UrlOf(e)), DescriptorOf(e));
    EntrySolid(join(UrlOf(e)), DescriptorOf(e));
  }

  /** A list that is written with a comma in a URL is longer when it is read. */
  lemma CommaGrows(s: string, join: string -> string, i: nat)
    requires ResolvesWhole(s, join) && i < |Entries(s)| && ',' in join(UrlOf(Entries(s)[i]))
    ensures Resolve(Resolve(s, join), join) != Resolve(s, join)
  {
    var es := ResolveAll(Entries(s), join);
    var r := Join(es, ", ");
    forall e | e in es
      ensures AllSolid(Split(e, ','))
    {
      var k :| 0 <= k < |es| && es[k] == e;
      ResolvedParts(s, join, k);
    }
    JoinSolid(es);
    NonBlankAll(Split(r, ','));
    SplitFree(r, ',');
    ResolvedParts(s, join, i);
    TightUrl(join(UrlOf(Entries(s)[i])), DescriptorOf(Entries(s)[i]));
    TightEntry(es, i);
    var more := ResolveAll(Entries(r), join);
    CountJoin(more);
    TotalNone(more);
    if Join(more, ", ") == r {
      LooseJoin(more);
      assert false;
    }
  }

  lemma TightUrl(url: string, d: string)
    requires Whole(url) && ',' in url
    ensures Tight(WithDescriptor(url, d))
  {
    WholeTight(url);
    TightPart("", url, if d == "" then "" else " " + d);
    assert "" + (url + (" " + d)) == url + (" " + d) && "" + (url + "") == url;
  }

  /** Without commas the resolved list is read back entry by entry. */
  lemma ReadBack(s: string, join: string -> string)
    requires ResolvesWhole(s, join) && forall e :: e in Entries(s) ==> ',' !in join(UrlOf(e))
    ensures var es := ResolveAll(Entries(s), join);
      && (forall e :: e in es ==> EntryText(e))
      && Resolve(Resolve(s, join), join) == Join(ResolveAll(es, join), ", ")
  {
    var es := ResolveAll(Entries(s), join);
    forall e | e in es
      ensures EntryText(e)
    {
      var k :| 0 <= k < |es| && es[k] == e;
      ResolvedParts(s, join, k);
      assert Entries(s)[k] in Entries(s);
    }
    EntriesOfJoined(es);
  }

  lemma EntryAgain(s: string, join: string -> string, k: nat)
    requires ResolvesWhole(s, join) && k < |Entries(s)|
    ensures var url := join(UrlOf(Entries(s)[k]));
      ResolveEntry(ResolveAll(Entries(s), join)[k], join) == ResolveAll(Entries(s), join)[k] <==> join(url) == url
  {
    ResolvedParts(s, join, k);
    var e := Entries(s)[k];
    if ResolveEntry(ResolveAll(Entries(s), join)[k], join) == ResolveAll(Entries(s), join)[k] {
      DescriptorCancels(join(join(UrlOf(e))), join(UrlOf(e)), DescriptorOf(e));
    }
  }

  /** Without commas the list is written again unchanged exactly when every URL resolves to
      itself. */
  lemma NoCommaIff(s: string, join: string -> string)
    requires ResolvesWhole(s, join) && forall e :: e in Entries(s) ==> ',' !in join(UrlOf(e))
    ensures Resolve(Resolve(s, join), join) == Resolve(s, join) <==> Steady(s, join)
  {
    var es := ResolveAll(Entries(s), join);
    var more := ResolveAll(es, join);
    ReadBack(s, join);
    forall k | 0 <= k < |es|
      ensures more[k] == es[k] <==> join(join(UrlOf(Entries(s)[k]))) == join(UrlOf(Entries(s)[k]))
    {
      EntryAgain(s, join, k);
    }
    if Join(more, ", ") == Join(es, ", ") {
      SameJoin(es, more);
    }
    if Steady(s, join) {
      assert forall k :: 0 <= k < |es| ==> Entries(s)[k] in Entries(s);
      assert more == es;
    }
  }

  /** A list equal to one without commas in its entries has the same entries. */
  lemma SameJoin(es: seq<string>, more: seq<string>)
    requires |more| == |es| && Join(more, ", ") == Join(es, ", ")
    requires forall e :: e in es ==> EntryText(e)
    ensures more == es
  {
    if es != [] {
      CountJoin(es);
      CountJoin(more);
      TotalNone(es);
      TotalNone(more);
      SplitJoined(es);
      SplitJoined(more);
      SameSpaced(es[1..], more[1..]);
      assert ([es[0]] + Spaced(es[1..]))[1..] == Spaced(es[1..]);
      assert ([more[0]] + Spaced(more[1..]))[1..] == Spaced(more[1..]);
      assert ([es[0]] + Spaced(es[1..]))[0] == ([more[0]] + Spaced(more[1..]))[0];
      assert es == [es[0]] + es[1..] && more == [more[0]] + more[1..];
    }
  }

  lemma {:induction false} SameSpaced(a: seq<string>, b: seq<string>)
    requires |a| == |b|
    ensures Spaced(a) == Spaced(b) ==> a == b
  {
    if a != [] && Spaced(a) == Spaced(b) {
      assert (" " + a[0])[1..] == a[0] && (" " + b[0])[1..] == b[0];
      assert Spaced(a)[0] == " " + a[0] && Spaced(b)[0] == " " + b[0];
      assert Spaced(a)[1..] == Spaced(a[1..]) && Spaced(b)[1..] == Spaced(b[1..]);
      SameSpaced(a[1..], b[1..]);
    }
  }

  // ---------------------------------------------------------- heads that stand

  predicate Delimits(c: char) { c == ',' || IsSpace(c) }

  /** What a text begins with, up to a comma or whitespace. */
  function Lead(s: string): (r: string)
    ensures |r| <= |s| && r == s[..|r|]
    ensures |r| < |s| ==> Delimits(s[|r|])
    ensures forall k :: 0 <= k < |r| ==> !Delimits(r[k])
  {
    if s == "" || Delimits(s[0]) then "" else [s[0]] + Lead(s[1..])
  }

  lemma {:induction false} LeadConcat(a: string, b: string)
    requires b == "" || Delimits(b[0])
    ensures Lead(a + b) == Lead(a)
  {
    if a == "" {
      assert a + b == b;
    } else {
      assert (a + b)[0] == a[0] && (a + b)[1..] == a[1..] + b;
      LeadConcat(a[1..], b);
    }
  }

  lemma {:induction false} LeadFree(w: string)
    requires forall k :: 0 <= k < |w| ==> !Delimits(w[k])
    ensures Lead(w) == w
  {
    if w != "" {
      LeadFree(w[1..]);
      assert w == [w[0]] + w[1..];
    }
  }

  /** A resolved URL has no whitespace, and what stands in front of its first comma is
      something that resolves to itself. */
  predicate Stands(url: string, join: string -> string) {
    Word(url) && Lead(url) != "" && join(Lead(url)) == Lead(url)
  }

  /** A URL that ends in its only comma is cut off from its descriptor, which is then an
      entry itself and must not read as what it resolves to. */
  predicate Apart(url: string, d: string, join: string -> string) {
    d != "" && url == Lead(url) + "," ==> Lead(join(UrlOf(d))) != UrlOf(d)
  }

  predicate ResolvesStanding(s: string, join: string -> string) {
    forall e :: e in Entries(s) ==> Stands(join(UrlOf(e)), join) && Apart(join(UrlOf(e)), DescriptorOf(e), join)
  }

  /** An entry as it is written: a URL that stands, and its descriptor. */
  datatype Part = Part(url: string, descriptor: string)

  predicate Good(p: Part, join: string -> string) {
    Stands(p.url, join) && Descriptor(p.descriptor) && Apart(p.url, p.descriptor, join)
  }

  function Written(ps: seq<Part>): (r: seq<string>)
    ensures |r| == |ps| && forall k :: 0 <= k < |r| ==> r[k] == WithDescriptor(ps[k].url, ps[k].descriptor)
  {
    if ps == [] then [] else [WithDescriptor(ps[0].url, ps[0].descriptor)] + Written(ps[1..])
  }

  /** What stands in front of a comma is the first entry. */
  lemma FirstEntry(e: string, rest: string)
    requires EntryText(e)
    ensures Entries(e + ("," + rest)) == [e] + Entries(rest)
  {
    SplitOfPiece(e, rest, ',');
    StripTrims(e);
    var ps := [e] + Split(rest, ',');
    assert ps[1..] == Split(rest, ',');
  }

  /** A space in front of a list does not show. */
  lemma SpaceBefore(t: string)
    ensures Entries(" " + t) == Entries(t)
  {
    var ps := Split(t, ',');
    SplitPrefix(" ", t, ',');
    assert (" " + ps[0])[1..] == ps[0];
    assert Grown(" ", ps)[1..] == ps[1..];
    assert Strip(" " + ps[0]) == Strip(ps[0]);
  }

  /** Reading and writing a list that begins with an entry. */
  lemma FirstResolved(e: string, rest: string, join: string -> string)
    requires EntryText(e)
    ensures Resolve(e + ("," + rest), join)
         == ResolveEntry(e, join) + if Entries(rest) == [] then "" else ", " + Resolve(rest, join)
  {
    FirstEntry(e, rest);
    var es := [e] + Entries(rest);
    assert es[1..] == Entries(rest);
    var rs := ResolveAll(es, join);
    assert rs[0] == ResolveEntry(e, join) && rs[1..] == ResolveAll(Entries(rest), join);
    assert rs[0] + "" == rs[0];
  }

  /** The text behind the first comma of a list whose first URL has one. */
  lemma BehindComma(url: string, d: string, tail: string) returns (y: string)
    requires Word(url) && ',' in url && Lead(url) != "" && (tail == "" || tail[0] == ',')
    ensures WithDescriptor(url, d) + tail == Lead(url) + ("," + y)
    ensures y == "" || y[0] != ' ' || (d != "" && url == Lead(url) + "," && y == " " + (d + tail))
  {
    var h := Lead(url);
    var k :| 0 <= k < |url| && url[k] == ',';
    assert |h| < |url| && url[|h|] == ',' by {
      assert |h| <= k;
      assert !IsSpace(url[|h|]);
    }
    var more := url[|h| + 1..];
    assert url == h + ("," + more);
    var behind := if d == "" then tail else " " + (d + tail);
    y := more + behind;
    assert WithDescriptor(url, d) + tail == url + behind by {
      if d == "" {
        assert url + tail == WithDescriptor(url, d) + tail;
      } else {
        Regroup(url, " " + d, tail);
        Regroup(" ", d, tail);
      }
    }
    Regroup(h, "," + more, behind);
    Regroup(",", more, behind);
    if more == "" {
      assert y == behind;
    } else {
      assert y[0] == more[0] == url[|h| + 1];
    }
  }

  lemma WordIsEntry(w: string, join: string -> string)
    requires Word(w) && ',' !in w
    ensures EntryText(w) && ResolveEntry(w, join) == join(w) && Lead(w) == w
  {
    PartsRead(w, "");
    LeadFree(w);
  }

  lemma LeadOfEntry(d: string, tail: string)
    requires EntryText(d) && (tail == "" || tail[0] == ',')
    ensures Lead(d + tail) == UrlOf(d)
  {
    var n := WordLength(d);
    LeadConcat(d, tail);
    assert d == d[..n] + d[n..];
    LeadConcat(d[..n], d[n..]);
    assert forall k :: 0 <= k < n ==> d[k] in d;
    LeadFree(d[..n]);
  }

  /** A resolved list begins as its first resolved URL does. */
  lemma LeadOfResolved(d: string, tail: string, join: string -> string)
    requires EntryText(d) && (tail == "" || tail[0] == ',')
    ensures Lead(Resolve(d + tail, join)) == Lead(join(UrlOf(d)))
  {
    LeadOfDescribed(join(UrlOf(d)), DescriptorOf(d));
    if tail == "" {
      EntriesOfJoined([d]);
      assert d + tail == d;
    } else {
      assert tail == "," + tail[1..];
      LeadOfMore(d, tail[1..], join);
    }
  }

  lemma LeadOfMore(d: string, more: string, join: string -> string)
    requires EntryText(d)
    ensures Lead(Resolve(d + ("," + more), join)) == Lead(ResolveEntry(d, join))
  {
    var e := ResolveEntry(d, join);
    FirstResolved(d, more, join);
    if Entries(more) == [] {
      assert e + "" == e;
    } else {
      LeadConcat(e, ", " + Resolve(more, join));
    }
  }

  lemma LeadOfDescribed(url: string, d: string)
    ensures Lead(WithDescriptor(url, d)) == Lead(url)
  {
    if d != "" {
      LeadConcat(url, " " + d);
    }
  }

  lemma SameBehind(a: string, x: string, y: string)
    ensures a + x == a + y <==> x == y
  {
    assert (a + x)[|a|..] == x && (a + y)[|a|..] == y;
  }

  lemma GapDiffers(y: string, z: string)
    ensures ", " + z == "," + y <==> y == " " + z
  {
    assert ", " + z == "," + (" " + z);
    SameBehind(",", " " + z, y);
  }

  /** A list whose first entry is cut off by a comma without a space is written differently. */
  lemma CutOff(h: string, y: string, join: string -> string)
    requires Word(h) && ',' !in h && join(h) == h && (Entries(y) == [] || y != " " + Resolve(y, join))
    ensures Resolve(h + ("," + y), join) != h + ("," + y)
  {
    WordIsEntry(h, join);
    FirstResolved(h, y, join);
    if Entries(y) == [] {
      assert h + "" == h;
    } else {
      GapDiffers(y, Resolve(y, join));
      SameBehind(h, ", " + Resolve(y, join), "," + y);
    }
  }

  /** A list that begins with a URL that has a comma is written differently when it is read. */
  lemma CommaFirst(p: Part, tail: string, join: string -> string)
    requires Good(p, join) && ',' in p.url && (tail == "" || tail[0] == ',')
    ensures var r := WithDescriptor(p.url, p.descriptor) + tail; Resolve(r, join) != r
  {
    var y := BehindComma(p.url, p.descriptor, tail);
    if y == " " + Resolve(y, join) {
      SameBehind(" ", Resolve(y, join), p.descriptor + tail);
      DescriptorMoves(p.descriptor, tail, y, join);
      assert false;
    }
    CutOff(Lead(p.url), y, join);
  }

  /** A descriptor that has become an entry is not written back as it stands. */
  lemma DescriptorMoves(d: string, tail: string, y: string, join: string -> string)
    requires d != "" && Descriptor(d) && (tail == "" || tail[0] == ',') && y == " " + (d + tail)
    requires Lead(join(UrlOf(d))) != UrlOf(d)
    ensures Resolve(y, join) != d + tail
  {
    SpaceBefore(d + tail);
    LeadOfEntry(d, tail);
    LeadOfResolved(d, tail, join);
  }

  /** In front of a list that is written differently, an entry that is written as it stands
      changes nothing. */
  lemma PlainFirst(p: Part, t: string, join: string -> string)
    requires Good(p, join) && ',' !in p.url && Resolve(t, join) != t
    ensures var r := WithDescriptor(p.url, p.descriptor) + ("," + (" " + t)); Resolve(r, join) != r
  {
    PlainEntry(p, join);
    FixedFirst(WithDescriptor(p.url, p.descriptor), t, join);
  }

  lemma FixedFirst(e: string, t: string, join: string -> string)
    requires EntryText(e) && ResolveEntry(e, join) == e && Resolve(t, join) != t
    ensures Resolve(e + ("," + (" " + t)), join) != e + ("," + (" " + t))
  {
    SpaceBefore(t);
    FirstResolved(e, " " + t, join);
    if Entries(t) == [] {
      assert e + "" == e;
    } else {
      GapDiffers(" " + t, Resolve(t, join));
      SameBehind(" ", Resolve(t, join), t);
      SameBehind(e, ", " + Resolve(t, join), "," + (" " + t));
    }
  }

  /** A list with a comma in a URL is written differently when it is read. */
  lemma {:induction false} StandingChanges(ps: seq<Part>, i: nat, join: string -> string)
    requires (forall p :: p in ps ==> Good(p, join)) && i < |ps| && ',' in ps[i].url
    ensures var r := Join(Written(ps), ", "); Resolve(r, join) != r
  {
    var es := Written(ps);
    assert ps[0] in ps;
    if |ps| == 1 {
      CommaFirst(ps[0], "", join);
      assert es[0] + "" == es[0];
    } else {
      JoinMore(es);
      if ',' in ps[0].url {
        CommaFirst(ps[0], "," + (" " + Join(es[1..], ", ")), join);
      } else {
        StandingChanges(ps[1..], i - 1, join);
        PlainFirst(ps[0], Join(es[1..], ", "), join);
      }
    }
  }

  lemma PlainEntry(p: Part, join: string -> string)
    requires Good(p, join) && ',' !in p.url
    ensures var e := WithDescriptor(p.url, p.descriptor); EntryText(e) && ResolveEntry(e, join) == e
  {
    WordIsEntry(p.url, join);
    PartsRead(p.url, p.descriptor);
  }

  function PartsOf(entries: seq<string>, join: string -> string): (r: seq<Part>)
    ensures |r| == |entries|
    ensures forall k :: 0 <= k < |r| ==> r[k] == Part(join(UrlOf(entries[k])), DescriptorOf(entries[k]))
  {
    seq(|entries|, k requires 0 <= k < |entries| => Part(join(UrlOf(entries[k])), DescriptorOf(entries[k])))
  }

  lemma PartsGood(s: string, join: string -> string)
    requires ResolvesStanding(s, join)
    ensures forall p :: p in PartsOf(Entries(s), join) ==> Good(p, join)
  {
    var entries := Entries(s);
    EntriesShape(s);
    forall p | p in PartsOf(entries, join)
      ensures Good(p, join)
    {
      var k :| 0 <= k < |entries| && PartsOf(entries, join)[k] == p;
      assert entries[k] in entries;
      EntryParts(entries[k]);
    }
  }

  lemma WrittenParts(entries: seq<string>, join: string -> string)
    ensures Written(PartsOf(entries, join)) == ResolveAll(entries, join)
  {
  }

  lemma StandingComma(s: string, join: string -> string, i: nat)
    requires ResolvesStanding(s, join) && i < |Entries(s)| && ',' in join(UrlOf(Entries(s)[i]))
    ensures Resolve(Resolve(s, join), join) != Resolve(s, join)
  {
    PartsGood(s, join);
    WrittenParts(Entries(s), join);
    StandingChanges(PartsOf(Entries(s), join), i, join);
  }

  lemma FreeIsWhole(url: string)
    requires Word(url) && ',' !in url
    ensures Whole(url)
  {
    SplitOfPiece(url, "", ',');
  }

  /** The resolved URLs are words, and either their commas are single and inside, or what
      stands in front of the first comma is something that resolves to itself, as the front of
      an absolute URL does. */
  predicate Readable(s: string, join: string -> string) { ResolvesWhole(s, join) || ResolvesStanding(s, join) }

  /** Resolving a resolved list again changes nothing exactly when every URL in it resolves
      to one that has no comma and resolves to itself. */
  lemma ResolveTwiceIff(s: string, join: string -> string)
    requires Readable(s, join)
    ensures Resolve(Resolve(s, join), join) == Resolve(s, join) <==> Steady(s, join)
  {
    if e :| e in Entries(s) && ',' in join(UrlOf(e)) {
      var i :| 0 <= i < |Entries(s)| && Entries(s)[i] == e;
      if ResolvesWhole(s, join) {
        CommaGrows(s, join, i);
      } else {
        StandingComma(s, join, i);
      }
    } else {
      forall e | e in Entries(s) ensures Whole(join(UrlOf(e))) { FreeIsWhole(join(UrlOf(e))); }
      NoCommaIff(s, join);
    }
  }

  lemma HeadStands(head: string, tail: string, join: string -> string)
    requires Word(head) && ',' !in head && Word(tail) && join(head) == head
    ensures var url := head + ("," + tail); Stands(url, join) && ',' in url && Apart(url, "", join)
  {
    var url := head + ("," + tail);
    WordIsEntry(head, join);
    LeadConcat(head, "," + tail);
    assert url[|head|] == ',';
    assert forall k :: |head| < k < |url| ==> url[k] == tail[k - |head| - 1];
  }

  /** For every base that leads to a comma, single or not, and a name whose resolved head
      resolves to itself, as `i.png` below `http://a/x,,y/`. */
  lemma CommasInBase(name: string, head: string, tail: string, join: string -> string)
    requires Word(name) && ',' !in name && Word(head) && ',' !in head && Word(tail)
    requires join(name) == head + ("," + tail) && join(head) == head
    ensures Resolve(Resolve(name, join), join) != Resolve(name, join)
  {
    OneEntry(name);
    WordLengthIs(name, "");
    assert name + "" == name;
    HeadStands(head, tail, join);
    StandingComma(name, join, 0);
  }

  /** Only a list without entries resolves to nothing. */
  lemma ResolvedEmpty(s: string, join: string -> string)
    requires Readable(s, join)
    ensures Resolve(s, join) == "" <==> Entries(s) == []
  {
    if Entries(s) != [] {
      assert Entries(s)[0] in Entries(s);
      assert Word(join(UrlOf(Entries(s)[0])));
    }
  }

  lemma OneEntry(name: string)
    requires Word(name) && ',' !in name
    ensures Entries(name) == [name] && UrlOf(name) == name
  {
    SplitOfPiece(name, "", ',');
    assert Split(name, ',') == [name] && [name][1..] == [];
    StripTrims(name);
    assert NonBlank([name]) == [name] + NonBlank([name][1..]) && NonBlank([]) == [];
    WordLengthIs(name, "");
    assert name + "" == name;
  }

  lemma CommaInside(a: string, b: string)
    requires Word(a) && Word(b) && ',' !in a && ',' !in b
    ensures Whole(a + ("," + b)) && ',' in a + ("," + b)
  {
    var url := a + ("," + b);
    SplitOfPiece(a, b, ',');
    SplitOfPiece(b, "", ',');
    assert url[|a|] == ',';
    assert forall k :: |a| < k < |url| ==> url[k] == b[k - |a| - 1];
  }

  /** A name below a directory with a comma, as `i.png` below `http://a/x,y/`. */
  lemma CommaInBase(name: string, head: string, tail: string, join: string -> string)
    requires Word(name) && ',' !in name && Word(head) && ',' !in head && Word(tail) && ',' !in tail
    requires join(name) == head + ("," + tail)
    ensures Resolve(Resolve(name, join), join) != Resolve(name, join)
  {
    OneEntry(name);
    CommaInside(head, tail);
    CommaGrows(name, join, 0);
  }
}
