/** String building blocks of the macro text: quoting, repetition, joining
    and splitting on a separator, and a reference reading of a loader
    argument list (quoted words and bare words separated by blanks). */
module Text {

  /** Index of the first `c` in `s`, or `|s|` when there is none. */
  function Find(s: string, c: char): (k: nat)
    ensures k <= |s|
    ensures k < |s| ==> s[k] == c
    ensures forall i :: 0 <= i < k ==> s[i] != c
  {
    if s == [] then 0 else if s[0] == c then 0 else 1 + Find(s[1..], c)
  }

  lemma {:induction false} FindConcat(a: string, b: string, c: char)
    requires c !in a
    ensures Find(a + b, c) == |a| + Find(b, c)
  {
    if a != [] {
      assert (a + b)[1..] == a[1..] + b;
      FindConcat(a[1..], b, c);
    } else {
      assert a + b == b;
    }
  }

  /** `"w"`, the word between double quotes. */
  function Quote(w: string): string {
    "\"" + w + "\""
  }

  /** Every item quoted and followed by one blank, as the loops that build
      the zone and variable lists of the macro produce them. */
  function QuotedList(items: seq<string>): string {
    if items == [] then "" else Quote(items[0]) + " " + QuotedList(items[1..])
  }

  lemma {:induction false} QuotedListAppend(a: seq<string>, b: seq<string>)
    ensures QuotedList(a + b) == QuotedList(a) + QuotedList(b)
  {
    if a == [] {
      assert a + b == b;
    } else {
      assert (a + b)[1..] == a[1..] + b;
      QuotedListAppend(a[1..], b);
    }
  }

  /** Appending one item appends its quoted form and a blank. */
  lemma {:induction false} QuotedListSnoc(a: seq<string>, x: string)
    ensures QuotedList(a + [x]) == QuotedList(a) + Quote(x) + " "
  {
    QuotedListAppend(a, [x]);
    assert QuotedList([x]) == Quote(x) + " " + QuotedList([]);
  }

  /** `n` copies of `s` side by side: Python's `s * n`. */
  function Repeat(s: string, n: nat): (r: string)
    ensures |r| == n * |s|
  {
    if n == 0 then "" else Repeat(s, n - 1) + s
  }

  /** `n` copies of the word `w`. */
  function Copies(w: string, n: nat): seq<string> {
    seq(n, _ => w)
  }

  /** Repeating a quoted word and a blank is the quoted list of its copies. */
  lemma {:induction false} RepeatQuoted(w: string, n: nat)
    ensures Repeat(Quote(w) + " ", n) == QuotedList(Copies(w, n))
  {
    if n > 0 {
      RepeatQuoted(w, n - 1);
      assert Copies(w, n) == Copies(w, n - 1) + [w];
      QuotedListSnoc(Copies(w, n - 1), w);
    }
  }

  /** The parts joined with `sep` between them (Python's `sep.join`). */
  function Join(parts: seq<string>, sep: char): string {
    if |parts| == 0 then ""
    else if |parts| == 1 then parts[0]
    else parts[0] + [sep] + Join(parts[1..], sep)
  }

  /** The pieces of `s` between occurrences of `sep` (Python's `s.split(sep)`). */
  function Split(s: string, sep: char): (parts: seq<string>)
    ensures |parts| >= 1
    decreases |s|
  {
    var k := Find(s, sep);
    if k == |s| then [s] else [s[..k]] + Split(s[k + 1..], sep)
  }

  predicate Free(parts: seq<string>, c: char) {
    forall i :: 0 <= i < |parts| ==> c !in parts[i]
  }

  lemma {:induction false} FreeTail(parts: seq<string>, c: char)
    requires parts != [] && Free(parts, c)
    ensures c !in parts[0] && Free(parts[1..], c)
  {
    forall i | 0 <= i < |parts| - 1 ensures c !in parts[1..][i] {
      assert parts[1..][i] == parts[i + 1];
    }
  }

  /** A character that is no separator and occurs in no part does not occur in the join. */
  lemma {:induction false} JoinFree(parts: seq<string>, sep: char, c: char)
    requires c != sep && Free(parts, c)
    ensures c !in Join(parts, sep)
    decreases |parts|
  {
    if |parts| > 1 {
      assert Free(parts[1..], c) by {
        forall i | 0 <= i < |parts| - 1 ensures c !in parts[1..][i] {
          assert parts[1..][i] == parts[i + 1];
        }
      }
      JoinFree(parts[1..], sep, c);
      assert c !in parts[0];
    }
  }

  /** A character other than the quote and the blank, absent from every
      item, is absent from the quoted list. */
  lemma {:induction false} QuotedListFree(items: seq<string>, c: char)
    requires c != '"' && c != ' ' && Free(items, c)
    ensures c !in QuotedList(items)
    decreases |items|
  {
    if items != [] {
      assert Free(items[1..], c) by {
        forall i | 0 <= i < |items| - 1 ensures c !in items[1..][i] {
          assert items[1..][i] == items[i + 1];
        }
      }
      QuotedListFree(items[1..], c);
      assert c !in items[0];
    }
  }

  /** Splitting a join gives back the parts, when none holds the separator. */
  lemma {:induction false} SplitJoin(parts: seq<string>, sep: char)
    requires |parts| >= 1 && Free(parts, sep)
    ensures Split(Join(parts, sep), sep) == parts
    decreases |parts|
  {
    var p := parts[0];
    if |parts| == 1 {
      FindConcat(p, "", sep);
      assert p + "" == p;
    } else {
      var rest := Join(parts[1..], sep);
      var s := p + [sep] + rest;
      FindConcat(p, [sep] + rest, sep);
      assert p + ([sep] + rest) == s;
      assert s[..|p|] == p;
      assert s[|p| + 1..] == rest;
      SplitJoin(parts[1..], sep);
    }
  }

  /** A reference reading of a loader argument list: blanks separate words;
      a word that opens with a double quote runs to the next double quote,
      any other word runs to the next blank. */
  function Tokens(s: string): seq<string>
    decreases |s|
  {
    if s == [] then []
    else if s[0] == ' ' then Tokens(s[1..])
    else if s[0] == '"' then
      var k := Find(s[1..], '"');
      if k == |s| - 1 then [s[1..]] else [s[1..k + 1]] + Tokens(s[k + 2..])
    else
      var k := Find(s, ' ');
      [s[..k]] + Tokens(s[k..])
  }

  lemma {:induction false} TokensBlank(rest: string)
    ensures Tokens(" " + rest) == Tokens(rest)
  {
    assert (" " + rest)[1..] == rest;
  }

  /** A quoted word without quotes inside reads back as that word. */
  lemma {:induction false} TokensQuote(w: string, rest: string)
    requires '"' !in w
    ensures Tokens(Quote(w) + rest) == [w] + Tokens(rest)
  {
    var s := Quote(w) + rest;
    assert s[1..] == w + ("\"" + rest);
    FindConcat(w, "\"" + rest, '"');
    assert s[1..|w| + 1] == w;
    assert s[|w| + 2..] == rest;
  }

  /** A bare word without blanks or quotes, then a blank, reads back as that word. */
  lemma {:induction false} TokensBare(w: string, rest: string)
    requires w != [] && '"' !in w && ' ' !in w
    ensures Tokens(w + " " + rest) == [w] + Tokens(rest)
  {
    var s := w + " " + rest;
    assert s == w + (" " + rest);
    FindConcat(w, " " + rest, ' ');
    assert s[..|w|] == w;
    assert s[|w|..] == " " + rest;
    TokensBlank(rest);
  }

  /** A quoted list reads back as its items. */
  lemma {:induction false} TokensQuotedList(items: seq<string>, rest: string)
    requires Free(items, '"')
    ensures Tokens(QuotedList(items) + rest) == items + Tokens(rest)
  {
    if items == [] {
      assert QuotedList(items) + rest == rest;
    } else {
      FreeTail(items, '"');
      TokensQuotedList(items[1..], rest);
      TokensQuotedListStep(items, rest);
    }
  }

  /** One step of the reading: the first quoted item, then the rest. */
  lemma {:induction false} TokensQuotedListStep(items: seq<string>, rest: string)
    requires items != [] && '"' !in items[0]
    requires Tokens(QuotedList(items[1..]) + rest) == items[1..] + Tokens(rest)
    ensures Tokens(QuotedList(items) + rest) == items + Tokens(rest)
  {
    QuotedListCons(items, rest);
    TokensCons(QuotedList(items) + rest, items[0], QuotedList(items[1..]) + rest, items[1..], Tokens(rest));
    assert [items[0]] + items[1..] == items;
  }

  lemma {:induction false} TokensCons(s: string, w: string, tail: string, more: seq<string>, t: seq<string>)
    requires '"' !in w && s == Quote(w) + (" " + tail) && Tokens(tail) == more + t
    ensures Tokens(s) == ([w] + more) + t
  {
    TokensQuoteBlank(w, tail);
    assert [w] + (more + t) == ([w] + more) + t;
  }

  lemma {:induction false} QuotedListCons(items: seq<string>, rest: string)
    requires items != []
    ensures QuotedList(items) + rest == Quote(items[0]) + (" " + (QuotedList(items[1..]) + rest))
  {
  }

  lemma {:induction false} TokensQuoteBlank(w: string, t: string)
    requires '"' !in w
    ensures Tokens(Quote(w) + (" " + t)) == [w] + Tokens(t)
  {
    TokensQuote(w, " " + t);
    TokensBlank(t);
  }
}
