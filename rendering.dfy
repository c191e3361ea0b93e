/** The debug text of a validator set (`String()`).

    The text is a header `Validator Set: (Size = n)` followed, for each member
    `i` in index order, by a line `\n    Validator[i]: <id>, <weight>` in which
    the encoded ID is right-aligned in a column of 33 characters (Go's
    `%33s`) and the weight is in decimal. No newline follows the last line.
    The text encoding of IDs (CB58) is passed in as a function. */
module Rendering {
  import opened Ids
  import opened Validators

  /** Width of the ID column; 33 characters hold the CB58 text of any 20-byte ID. */
  const IDColumnWidth: nat := 33

  predicate IsDigit(c: char)
  {
    '0' <= c <= '9'
  }

  predicate IsDigits(s: string)
  {
    forall i :: 0 <= i < |s| ==> IsDigit(s[i])
  }

  function DigitChar(d: nat): (c: char)
    requires d < 10
    ensures IsDigit(c)
  {
    ('0' as int + d) as char
  }

  function DigitValue(c: char): (d: nat)
    requires IsDigit(c)
    ensures d < 10 && DigitChar(d) == c
  {
    c as int - '0' as int
  }

  /** Go's `%d` of a non-negative integer. */
  function NatToString(n: nat): (s: string)
    ensures |s| >= 1 && IsDigits(s)
    ensures s[0] == '0' ==> n == 0
    decreases n
  {
    if n < 10 then [DigitChar(n)] else NatToString(n / 10) + [DigitChar(n % 10)]
  }

  /** The value of a string of decimal digits. */
  function ParseNat(s: string): nat
    requires IsDigits(s)
  {
    if s == [] then 0 else ParseNat(s[..|s| - 1]) * 10 + DigitValue(s[|s| - 1])
  }

  /** Reading back a printed number gives the number. */
  lemma {:induction false} ParseNatToString(n: nat)
    ensures ParseNat(NatToString(n)) == n
    decreases n
  {
    if n >= 10 {
      var s := NatToString(n);
      assert s[..|s| - 1] == NatToString(n / 10);
      ParseNatToString(n / 10);
    }
  }

  lemma {:induction false} ParseNatPositive(s: string)
    requires IsDigits(s) && |s| >= 1 && s[0] != '0'
    ensures ParseNat(s) >= 1
  {
    if |s| > 1 {
      ParseNatPositive(s[..|s| - 1]);
    }
  }

  /** Printing the value of a canonical digit string (no leading zero unless
      it is "0") gives the string back. */
  lemma {:induction false} NatToStringParse(s: string)
    requires IsDigits(s) && |s| >= 1 && (s[0] == '0' ==> |s| == 1)
    ensures NatToString(ParseNat(s)) == s
  {
    if |s| > 1 {
      var init := s[..|s| - 1];
      ParseNatPositive(init);
      NatToStringParse(init);
      var n := ParseNat(s);
      assert n / 10 == ParseNat(init) && n % 10 == DigitValue(s[|s| - 1]);
      assert s == init + [s[|s| - 1]];
    }
  }

  /** Go's `%<width>s`: `s` right-aligned with leading spaces in a field of
      at least `width` characters; never truncated. */
  function PadLeft(s: string, width: nat): (r: string)
    ensures |r| == if |s| < width then width else |s|
    ensures r[|r| - |s|..] == s
    ensures forall i :: 0 <= i < |r| - |s| ==> r[i] == ' '
  {
    if |s| < width then seq(width - |s|, _ => ' ') + s else s
  }

  /** The header up to the size. */
  const SizeLead: string := "Validator Set: (Size = "

  /** The first line of the text: a single line, closed by `)`, from which
      the size reads back. */
  function Header(size: nat): (s: string)
    ensures NoNewline(s)
    ensures |SizeLead| < |s| && s[..|SizeLead|] == SizeLead && s[|s| - 1] == ')'
    ensures IsDigits(s[|SizeLead|..|s| - 1]) && ParseNat(s[|SizeLead|..|s| - 1]) == size
  {
    var digits := NatToString(size);
    var s := SizeLead + digits + ")";
    assert s[..|SizeLead|] == SizeLead;
    assert s[|SizeLead|..|s| - 1] == digits;
    ParseNatToString(size);
    assert NoNewline(SizeLead) && NoNewline(digits) && NoNewline(")");
    NoNewlineAppend(SizeLead, digits);
    NoNewlineAppend(SizeLead + digits, ")");
    s
  }

  /** The line for member `i`: it starts with its newline, holds no other
      when the ID's text holds none, and ends with the weight in decimal. */
  function Line(i: nat, v: Validator, encode: ShortID -> string): (s: string)
    ensures |s| > 0 && s[0] == '\n'
    ensures NoNewline(encode(v.id)) ==> NoNewline(s[1..])
    ensures var w := NatToString(v.weight); |w| < |s| && s[|s| - |w|..] == w
  {
    NewlineThen(LineText(i, v, encode), NatToString(v.weight));
    LineTextNoNewline(i, v, encode);
    LineTextEnd(i, v, encode);
    "\n" + LineText(i, v, encode)
  }

  /** A newline put before `text` leaves `text` after it and keeps its ending. */
  lemma NewlineThen(text: string, w: string)
    requires |w| < |text| && text[|text| - |w|..] == w
    ensures ("\n" + text)[1..] == text
    ensures ("\n" + text)[|text| + 1 - |w|..] == w
  {
    var s := "\n" + text;
    assert s[1..] == text;
    assert s[|s| - |w|..] == s[1..][|text| - |w|..];
  }

  /** The text of the line for member `i`, after its newline. */
  function LineText(i: nat, v: Validator, encode: ShortID -> string): string
  {
    "    Validator[" + NatToString(i) + "]: " + PadLeft(encode(v.id), IDColumnWidth)
    + ", " + NatToString(v.weight)
  }

  /** The member lines, in index order. */
  function Lines(vs: seq<Validator>, encode: ShortID -> string): string
  {
    if vs == [] then ""
    else Lines(vs[..|vs| - 1], encode) + Line(|vs| - 1, vs[|vs| - 1], encode)
  }

  /** The lines of the first `i + 1` members extend those of the first `i`
      by member `i`'s line. */
  lemma LinesPrefix(vs: seq<Validator>, i: nat, encode: ShortID -> string)
    requires i < |vs|
    ensures Lines(vs[..i + 1], encode) == Lines(vs[..i], encode) + Line(i, vs[i], encode)
  {
    assert vs[..i + 1][..i] == vs[..i];
  }

  /** A member line's text ends with the member's weight. */
  lemma LineTextEnd(i: nat, v: Validator, encode: ShortID -> string)
    ensures var text, w := LineText(i, v, encode), NatToString(v.weight);
              |w| < |text| && text[|text| - |w|..] == w
  {
    var w := NatToString(v.weight);
    var lead := "    Validator[" + NatToString(i) + "]: " + PadLeft(encode(v.id), IDColumnWidth) + ", ";
    assert LineText(i, v, encode) == lead + w;
  }

  /** The member lines are empty, or end with the last member's weight. */
  lemma LinesEnd(vs: seq<Validator>, encode: ShortID -> string)
    ensures var lines := Lines(vs, encode);
            (vs == [] <==> lines == []) && (lines != [] ==> IsDigit(lines[|lines| - 1]))
  {
    if vs != [] {
      var n := |vs| - 1;
      var line := Line(n, vs[n], encode);
      var w := NatToString(vs[n].weight);
      assert line[|line| - 1] == w[|w| - 1];
      assert Lines(vs, encode)[|Lines(vs, encode)| - 1] == line[|line| - 1];
    }
  }

  /** The whole text of a set with members `vs`. It never ends with a
      newline (it ends with the header's `)` or with the last member's
      weight), and when no ID's text holds a newline it has exactly one
      line per member after the header. */
  function Render(vs: seq<Validator>, encode: ShortID -> string): (s: string)
    ensures |s| > 0 && s[|s| - 1] != '\n'
    ensures (forall id: ShortID :: NoNewline(encode(id))) ==> Newlines(s) == |vs|
  {
    var head, lines := Header(|vs|), Lines(vs, encode);
    var s := head + lines;
    LinesEnd(vs, encode);
    assert s[|s| - 1] == if lines == [] then head[|head| - 1] else lines[|lines| - 1];
    assert (forall id: ShortID :: NoNewline(encode(id))) ==> Newlines(s) == |vs| by {
      if (forall id: ShortID :: NoNewline(encode(id))) {
        NewlinesAppend(head, lines);
        NewlinesNone(head);
        LinesCount(vs, encode);
      }
    }
    s
  }

  /** The number of newline characters in `s`. */
  function Newlines(s: string): nat
  {
    if s == [] then 0 else Newlines(s[..|s| - 1]) + (if s[|s| - 1] == '\n' then 1 else 0)
  }

  lemma {:induction false} NewlinesAppend(a: string, b: string)
    ensures Newlines(a + b) == Newlines(a) + Newlines(b)
    decreases |b|
  {
    if b != [] {
      assert (a + b)[..|a + b| - 1] == a + b[..|b| - 1];
      NewlinesAppend(a, b[..|b| - 1]);
    } else {
      assert a + b == a;
    }
  }

  lemma {:induction false} NewlinesNone(s: string)
    requires NoNewline(s)
    ensures Newlines(s) == 0
  {
    if s != [] {
      NewlinesNone(s[..|s| - 1]);
    }
  }

  predicate NoNewline(s: string)
  {
    forall i :: 0 <= i < |s| ==> s[i] != '\n'
  }

  lemma NoNewlineAppend(a: string, b: string)
    requires NoNewline(a) && NoNewline(b)
    ensures NoNewline(a + b)
  {
    forall i | 0 <= i < |a + b| ensures (a + b)[i] != '\n' {
      if i < |a| { assert (a + b)[i] == a[i]; } else { assert (a + b)[i] == b[i - |a|]; }
    }
  }

  lemma PadLeftNoNewline(s: string, width: nat)
    requires NoNewline(s)
    ensures NoNewline(PadLeft(s, width))
  {
    var r := PadLeft(s, width);
    forall k | 0 <= k < |r| ensures r[k] != '\n' {
      if k >= |r| - |s| {
        assert r[k] == r[|r| - |s|..][k - (|r| - |s|)];
      }
    }
  }

  lemma LiteralsNoNewline()
    ensures NoNewline("    Validator[") && NoNewline("]: ") && NoNewline(", ")
  {
  }

  lemma LineTextNoNewline(i: nat, v: Validator, encode: ShortID -> string)
    ensures NoNewline(encode(v.id)) ==> NoNewline(LineText(i, v, encode))
  {
    if NoNewline(encode(v.id)) {
      var idx, pad, w := NatToString(i), PadLeft(encode(v.id), IDColumnWidth), NatToString(v.weight);
      assert NoNewline(idx) && NoNewline(w);
      PadLeftNoNewline(encode(v.id), IDColumnWidth);
      LiteralsNoNewline();
      var t1 := "    Validator[" + idx;
      NoNewlineAppend("    Validator[", idx);
      NoNewlineAppend(t1, "]: ");
      NoNewlineAppend(t1 + "]: ", pad);
      NoNewlineAppend(t1 + "]: " + pad, ", ");
      NoNewlineAppend(t1 + "]: " + pad + ", ", w);
    }
  }

  /** Each member line holds exactly one newline, its first character, when
      the ID encoding produces none. */
  lemma NewlinesOfLine(i: nat, v: Validator, encode: ShortID -> string)
    requires NoNewline(encode(v.id))
    ensures Newlines(Line(i, v, encode)) == 1
    ensures Line(i, v, encode)[0] == '\n'
  {
    LineTextNoNewline(i, v, encode);
    NewlinesNone(LineText(i, v, encode));
    NewlinesAppend("\n", LineText(i, v, encode));
  }

  /** The member lines hold one newline each. */
  lemma {:induction false} LinesCount(vs: seq<Validator>, encode: ShortID -> string)
    requires forall id: ShortID :: NoNewline(encode(id))
    ensures Newlines(Lines(vs, encode)) == |vs|
  {
    if vs != [] {
      var n := |vs| - 1;
      LinesCount(vs[..n], encode);
      NewlinesAppend(Lines(vs[..n], encode), Line(n, vs[n], encode));
      NewlinesOfLine(n, vs[n], encode);
    }
  }

  /** Adding a member at the end adds its line at the end of the text (and
      updates the size in the header). */
  lemma RenderSnoc(vs: seq<Validator>, v: Validator, encode: ShortID -> string)
    ensures Render(vs + [v], encode) == Header(|vs| + 1) + (Lines(vs, encode) + Line(|vs|, v, encode))
  {
    assert (vs + [v])[..|vs|] == vs;
  }
}
