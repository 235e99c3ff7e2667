/**
 * Line-numbered diagnostics of the ASCII parser and the error text built
 * from them: an optional banner saying that triangles were skipped,
 * followed by one "<line>: <message>" line per diagnostic, in the order
 * they were recorded.
 */
module Diagnostics {

  datatype Diagnostic = Diagnostic(line: nat, message: string)

  predicate IsDigit(c: char) {
    '0' <= c <= '9'
  }

  function DigitChar(d: nat): (c: char)
    requires d < 10
    ensures IsDigit(c)
  {
    ('0' as int + d) as char
  }

  function DigitValue(c: char): (d: nat)
    requires IsDigit(c)
    ensures d < 10 && DigitChar(d) == c
    ensures forall e :: 0 <= e < 10 && DigitChar(e) == c ==> e == d
  {
    (c as int - '0' as int) as nat
  }

  /** The `%d` rendering of a non-negative number: decimal digits, no leading zero. */
  function Decimal(n: nat): (s: string)
    ensures 1 <= |s|
    ensures forall j :: 0 <= j < |s| ==> IsDigit(s[j])
    ensures |s| > 1 ==> s[0] != '0'
  {
    if n < 10 then [DigitChar(n)] else Decimal(n / 10) + [DigitChar(n % 10)]
  }

  /** The number a string of decimal digits denotes. */
  function DecimalValue(s: string): nat
    requires forall j :: 0 <= j < |s| ==> IsDigit(s[j])
  {
    if s == [] then 0 else DecimalValue(s[..|s| - 1]) * 10 + DigitValue(s[|s| - 1])
  }

  /** Reading a rendered line number back gives the number. */
  lemma {:induction false} DecimalRoundTrip(n: nat)
    ensures DecimalValue(Decimal(n)) == n
  {
    if n >= 10 {
      var prefix, last := Decimal(n / 10), DigitChar(n % 10);
      var s := prefix + [last];
      assert s[..|s| - 1] == prefix;
      assert DigitValue(last) == n % 10;
      DecimalRoundTrip(n / 10);
      assert DecimalValue(s) == DecimalValue(prefix) * 10 + n % 10;
    }
  }

  /** Distinct line numbers render differently. */
  lemma DecimalInjective(m: nat, n: nat)
    ensures Decimal(m) == Decimal(n) ==> m == n
  {
    DecimalRoundTrip(m);
    DecimalRoundTrip(n);
  }

  /** One diagnostic as a line of the error text. */
  function DiagnosticLine(d: Diagnostic): string {
    Decimal(d.line) + ": " + d.message + "\n"
  }

  /** The diagnostics, each on its own line, in order. */
  function Render(ds: seq<Diagnostic>): string {
    if ds == [] then "" else Render(ds[..|ds| - 1]) + DiagnosticLine(ds[|ds| - 1])
  }

  const SKIPPED_BANNER: string := "Triangles had to be skipped.\n"

  /** The parser's error text. */
  function ErrorText(skipped: bool, ds: seq<Diagnostic>): string {
    (if skipped then SKIPPED_BANNER else "") + Render(ds)
  }

  /** Concatenation is associative; used to regroup recorded diagnostics and appended triangles. */
  lemma AppendAssoc<T>(a: seq<T>, b: seq<T>, c: seq<T>)
    ensures (a + b) + c == a + (b + c)
  {
  }

  /** Recording one more diagnostic appends its line to the error text. */
  lemma ErrorTextStep(skipped: bool, ds: seq<Diagnostic>, d: Diagnostic)
    ensures ErrorText(skipped, ds + [d]) == ErrorText(skipped, ds) + DiagnosticLine(d)
  {
    assert (ds + [d])[..|ds|] == ds;
    AppendAssoc(if skipped then SKIPPED_BANNER else "", Render(ds), DiagnosticLine(d));
  }

  /** Rendering distributes over concatenation: diagnostics appear in recording order. */
  lemma {:induction false} RenderAppend(a: seq<Diagnostic>, b: seq<Diagnostic>)
    ensures Render(a + b) == Render(a) + Render(b)
    decreases |b|
  {
    if b == [] {
      assert a + b == a;
    } else {
      var c := b[..|b| - 1];
      var last := b[|b| - 1];
      assert (a + b)[..|a + b| - 1] == a + c;
      assert (a + b)[|a + b| - 1] == last;
      calc {
        Render(a + b);
        Render(a + c) + DiagnosticLine(last);
        { RenderAppend(a, c); }
        (Render(a) + Render(c)) + DiagnosticLine(last);
        Render(a) + (Render(c) + DiagnosticLine(last));
      }
    }
  }

  /** A non-empty rendering starts with the first diagnostic's line number. */
  lemma RenderStartsWithLine(ds: seq<Diagnostic>)
    requires ds != []
    ensures |Render(ds)| > |Decimal(ds[0].line)|
    ensures Render(ds)[..|Decimal(ds[0].line)|] == Decimal(ds[0].line)
  {
    var first, others := [ds[0]], ds[1..];
    assert first + others == ds;
    RenderAppend(first, others);
    var line, d := DiagnosticLine(ds[0]), Decimal(ds[0].line);
    assert Render(first) == line by {
      assert first[..0] == [];
    }
    assert line[..|d|] == d;
    assert (line + Render(others))[..|d|] == line[..|d|];
  }

  /** The error text opens with the banner exactly when triangles were skipped. */
  lemma ErrorTextBanner(skipped: bool, ds: seq<Diagnostic>)
    ensures var text := ErrorText(skipped, ds);
            skipped <==> |text| >= |SKIPPED_BANNER| && text[..|SKIPPED_BANNER|] == SKIPPED_BANNER
  {
    var text := ErrorText(skipped, ds);
    if !skipped && ds != [] {
      RenderStartsWithLine(ds);
      assert text[0] == Decimal(ds[0].line)[0];
      assert text[0] != SKIPPED_BANNER[0];
    }
  }

  /** The error text is empty exactly when nothing was skipped and nothing recorded. */
  lemma ErrorTextEmpty(skipped: bool, ds: seq<Diagnostic>)
    ensures ErrorText(skipped, ds) == "" <==> !skipped && ds == []
  {
    if ds != [] {
      RenderStartsWithLine(ds);
    }
  }
}
