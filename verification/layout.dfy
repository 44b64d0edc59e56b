/**
 The text table `send_slack_notification` builds for one application:
 Python's left-justified `:<w` format, the fixed header and separator
 rows, and the code fence around the whole message.
 */
module Layout {
  import opened Wrappers
  import opened Json

  /** `n` copies of `c`. */
  function Repeat(c: char, n: nat): (r: string)
    ensures |r| == n
    ensures forall i :: 0 <= i < n ==> r[i] == c
    decreases n
  {
    if n == 0 then "" else [c] + Repeat(c, n - 1)
  }

  /**
   Python's `f"{s:<w}"` on a string: `s` followed by spaces up to width `w`.
   A string longer than `w` is kept whole, never truncated.
   */
  function Pad(s: string, w: nat): (r: string)
    ensures |r| == if |s| >= w then |s| else w
    ensures r[..|s|] == s
    ensures forall i :: |s| <= i < |r| ==> r[i] == ' '
  {
    if |s| >= w then s else s + Repeat(' ', w - |s|)
  }

  /** The character of decimal digit `d`. */
  function DigitChar(d: nat): char
    requires d < 10
  {
    ('0' as int + d) as char
  }

  /** Every character of `s` is a decimal digit. */
  predicate IsDigits(s: string)
  {
    forall i :: 0 <= i < |s| ==> '0' <= s[i] <= '9'
  }

  /** The number a string of decimal digits denotes (most significant first). */
  function DigitsValue(s: string): nat
    requires IsDigits(s)
    decreases |s|
  {
    if |s| == 0 then 0
    else DigitsValue(s[..|s| - 1]) * 10 + (s[|s| - 1] as int - '0' as int)
  }

  /** A non-empty digit string that starts with `0` only when it is `0` itself. */
  predicate NoLeadingZero(s: string)
  {
    |s| >= 1 && (|s| == 1 || s[0] != '0')
  }

  /** `s` is the way Python's `str` writes the int `n`: an optional minus sign, then the digits of `|n|` without leading zeros. */
  predicate Denotes(s: string, n: int)
  {
    if n >= 0 then IsDigits(s) && NoLeadingZero(s) && DigitsValue(s) == n
    else |s| >= 2 && s[0] == '-' && IsDigits(s[1..]) && NoLeadingZero(s[1..]) && DigitsValue(s[1..]) == -n
  }

  /** The decimal digits of `n`, as `str(n)` writes them. */
  function Digits(n: nat): (r: string)
    ensures IsDigits(r) && NoLeadingZero(r)
    ensures DigitsValue(r) == n
    decreases n
  {
    if n < 10 then [DigitChar(n)]
    else
      var front := Digits(n / 10);
      var r := front + [DigitChar(n % 10)];
      assert r[..|r| - 1] == front;
      assert front[0] != '0' by {
        if |front| == 1 {
          assert front[..0] == [];
        }
      }
      r
  }

  /** `str(n)` for a Python int. */
  function Decimal(n: int): (r: string)
    ensures '\n' !in r
    ensures Denotes(r, n)
  {
    if n < 0 then
      var r := "-" + Digits(-n);
      assert r[1..] == Digits(-n);
      r
    else Digits(n)
  }

  /** A digit string without leading zeros that starts with a non-zero digit denotes a positive number. */
  lemma {:induction false} LeadingDigitPositive(s: string)
    requires IsDigits(s) && |s| >= 1 && s[0] != '0'
    ensures DigitsValue(s) >= 1
    decreases |s|
  {
    var front := s[..|s| - 1];
    if |s| == 1 {
      assert front == [];
    } else {
      assert front[0] == s[0];
      LeadingDigitPositive(front);
    }
  }

  /** Two digit strings without leading zeros that denote the same number are the same string. */
  lemma {:induction false} DigitsUnique(a: string, b: string)
    requires IsDigits(a) && NoLeadingZero(a)
    requires IsDigits(b) && NoLeadingZero(b)
    requires DigitsValue(a) == DigitsValue(b)
    ensures a == b
    decreases |a|
  {
    var fa, fb := a[..|a| - 1], b[..|b| - 1];
    var da, db := a[|a| - 1] as int - '0' as int, b[|b| - 1] as int - '0' as int;
    assert DigitsValue(fa) * 10 + da == DigitsValue(fb) * 10 + db;
    assert da == db && DigitsValue(fa) == DigitsValue(fb);
    if |a| == 1 && |b| == 1 {
      assert fa == [] && fb == [];
    } else if |a| == 1 {
      assert fa == [];
      assert fb[0] == b[0];
      LeadingDigitPositive(fb);
    } else if |b| == 1 {
      assert fb == [];
      assert fa[0] == a[0];
      LeadingDigitPositive(fa);
    } else {
      assert fa[0] == a[0] && fb[0] == b[0];
      DigitsUnique(fa, fb);
      assert a == fa + [a[|a| - 1]] && b == fb + [b[|b| - 1]];
    }
  }

  /** `Decimal` is the only string that writes `n` the way `str(n)` does. */
  lemma DecimalUnique(n: int, s: string)
    requires Denotes(s, n)
    ensures s == Decimal(n)
  {
    var r := Decimal(n);
    if n >= 0 {
      DigitsUnique(s, r);
    } else {
      DigitsUnique(s[1..], r[1..]);
      assert s == [s[0]] + s[1..] && r == [r[0]] + r[1..];
    }
  }

  /**
   The text a non-empty `:<w` format spec lays out for a decoded JSON value:
   a string as itself, an int in decimal, a bool through int formatting
   (`f"{True:<5}"` is `"1    "`). None, lists and dicts reject the spec.
   */
  function Shown(v: Json): (r: Option<string>)
    ensures r.Some? <==> v.Str? || v.Num? || v.Bool?
    ensures v.Str? ==> r == Some(v.s)
    ensures v.Num? ==> Denotes(r.value, v.n)
    ensures v.Bool? ==> Denotes(r.value, if v.b then 1 else 0)
  {
    match v
    case Str(s) => Some(s)
    case Num(n) => Some(Decimal(n))
    case Bool(b) => Some(Decimal(if b then 1 else 0))
    case _ => None
  }

  /** `f"{v:<w}"` for a decoded JSON value: raises TypeError when the value rejects the spec. */
  function Cell(v: Json, w: nat): (r: Result<string, Fault>)
    ensures r.Ok? <==> Shown(v).Some?
    ensures r.Err? ==> r.error == BadFormatSpec
    ensures r.Ok? ==> var text := Shown(v).value;
                      && |r.value| == (if |text| < w then w else |text|)
                      && r.value[..|text|] == text
                      && forall i :: |text| <= i < |r.value| ==> r.value[i] == ' '
  {
    match Shown(v)
    case None => Err(BadFormatSpec)
    case Some(s) => Ok(Pad(s, w))
  }

  /** Column widths of the table: application, state, attempts. */
  const NameWidth: nat := 20
  const StatusWidth: nat := 15
  const AttemptsWidth: nat := 10

  /** The three backticks that open and close the message. */
  const Fence: string := "```"

  /** The 50-dash separator row. */
  const Rule: string := Repeat('-', 50)

  /** One table row: three cells separated by single spaces. */
  function Row(name: string, status: string, attempts: string): string
  {
    name + " " + status + " " + attempts
  }

  /** The fixed header row. */
  const Header: string :=
    Row(Pad("Aplicación", NameWidth), Pad("Estado", StatusWidth), Pad("Intentos", AttemptsWidth))

  /** Lines joined with a newline between consecutive ones. */
  function JoinLines(lines: seq<string>): string
    requires |lines| > 0
    decreases |lines|
  {
    if |lines| == 1 then lines[0] else lines[0] + "\n" + JoinLines(lines[1..])
  }

  /** The lines of `s`: the pieces between newlines (one piece when there is none). */
  function Lines(s: string): (r: seq<string>)
    ensures |r| >= 1
    decreases |s|
  {
    if |s| == 0 then [""]
    else
      var rest := Lines(s[1..]);
      if s[0] == '\n' then [""] + rest else [[s[0]] + rest[0]] + rest[1..]
  }

  /**
   `message_text` of `send_slack_notification(app_name, status, attempts, action)`:
   fence, header, rule, data row, rule, action, fence, one per line. It
   raises when the name or the status rejects its column's format spec.
   */
  function MessageText(appName: Json, status: Json, attempts: int, action: string): (r: Result<string, Fault>)
    ensures r.Ok? <==> Shown(appName).Some? && Shown(status).Some?
    ensures r.Err? ==> r.error == BadFormatSpec
    ensures r.Ok? ==> |r.value| >= 8 && r.value[..4] == "```\n" && r.value[|r.value| - 4..] == "\n```"
  {
    var nameCell :- Cell(appName, NameWidth);
    var statusCell :- Cell(status, StatusWidth);
    var dataRow := Row(nameCell, statusCell, Pad(Decimal(attempts), AttemptsWidth));
    LayoutFenced(dataRow, action);
    Ok(JoinLines(MessageLayout(dataRow, action)))
  }

  /** The seven lines of a message around its data row and action. */
  function MessageLayout(dataRow: string, action: string): seq<string>
  {
    [Fence, Header, Rule, dataRow, Rule, action, Fence]
  }

  /** A line without a newline is its own single line. */
  lemma {:induction false} LinesOfLine(a: string)
    requires '\n' !in a
    ensures Lines(a) == [a]
    decreases |a|
  {
    if |a| > 0 {
      LinesOfLine(a[1..]);
      assert [a[0]] + a[1..] == a;
    }
  }

  /** Splitting `a + "\n" + b` yields `a` and then the lines of `b`. */
  lemma {:induction false} LinesOfBreak(a: string, b: string)
    requires '\n' !in a
    ensures Lines(a + "\n" + b) == [a] + Lines(b)
    decreases |a|
  {
    var s := a + "\n" + b;
    if |a| == 0 {
      assert s[0] == '\n' && s[1..] == b;
    } else {
      assert s[0] == a[0];
      assert s[1..] == a[1..] + "\n" + b;
      LinesOfBreak(a[1..], b);
      assert [a[0]] + a[1..] == a;
    }
  }

  /** Splitting undoes joining, for lines that hold no newline. */
  lemma {:induction false} LinesOfJoin(lines: seq<string>)
    requires |lines| > 0
    requires forall i :: 0 <= i < |lines| ==> '\n' !in lines[i]
    ensures Lines(JoinLines(lines)) == lines
    decreases |lines|
  {
    if |lines| == 1 {
      LinesOfLine(lines[0]);
    } else {
      LinesOfJoin(lines[1..]);
      LinesOfBreak(lines[0], JoinLines(lines[1..]));
    }
  }

  /** A join of two or more lines starts with the first line and a newline, and ends with a newline and the last. */
  lemma {:induction false} JoinEnds(lines: seq<string>)
    requires |lines| >= 2
    ensures var t := JoinLines(lines);
            |t| >= |lines[0]| + 1 + |lines[|lines| - 1]| &&
            t[..|lines[0]| + 1] == lines[0] + "\n" &&
            t[|t| - |lines[|lines| - 1]| - 1..] == "\n" + lines[|lines| - 1]
    decreases |lines|
  {
    var t := JoinLines(lines);
    var last := lines[|lines| - 1];
    if |lines| == 2 {
      assert JoinLines(lines[1..]) == last;
    } else {
      JoinEnds(lines[1..]);
      var u := JoinLines(lines[1..]);
      assert t == lines[0] + "\n" + u;
      assert t[|t| - |last| - 1..] == u[|u| - |last| - 1..];
    }
  }

  /** The header row is 47 characters holding the three column titles, the rule 50 dashes; neither breaks a line. */
  lemma HeaderAndRule()
    ensures |Header| == 47
    ensures Header[..10] == "Aplicación" && Header[21..27] == "Estado" && Header[37..45] == "Intentos"
    ensures |Rule| == 50 && forall i :: 0 <= i < 50 ==> Rule[i] == '-'
    ensures '\n' !in Header && '\n' !in Rule
  {
    var a := Pad("Aplicación", NameWidth);
    var e := Pad("Estado", StatusWidth);
    var n := Pad("Intentos", AttemptsWidth);
    assert Header == a + " " + e + " " + n;
    assert Header[21..27] == e[..6];
    assert Header[37..45] == n[..8];
    NoBreakInPad("Aplicación", NameWidth);
    NoBreakInPad("Estado", StatusWidth);
    NoBreakInPad("Intentos", AttemptsWidth);
  }

  /** A row of newline-free cells holds no newline. */
  lemma NoBreakInRow(name: string, status: string, attempts: string)
    requires '\n' !in name && '\n' !in status && '\n' !in attempts
    ensures '\n' !in Row(name, status, attempts)
  {
  }

  /** The seven lines come back out of the joined layout when the data row and the action hold no newline. */
  lemma LayoutLines(dataRow: string, action: string)
    requires '\n' !in dataRow && '\n' !in action
    ensures Lines(JoinLines(MessageLayout(dataRow, action))) == MessageLayout(dataRow, action)
  {
    HeaderAndRule();
    var pieces := MessageLayout(dataRow, action);
    assert forall i :: 0 <= i < |pieces| ==> '\n' !in pieces[i];
    LinesOfJoin(pieces);
  }

  /**
   Read line by line, the message is: a fence, the header row, a rule, the
   data row, a rule, the action, a fence, whenever the name, the status and
   the action hold no newline.
   */
  lemma MessageLines(appName: Json, status: Json, attempts: int, action: string)
    requires Shown(appName).Some? && Shown(status).Some?
    requires '\n' !in Shown(appName).value && '\n' !in Shown(status).value && '\n' !in action
    ensures MessageText(appName, status, attempts, action).Ok?
    ensures Lines(MessageText(appName, status, attempts, action).value)
         == [Fence, Header, Rule,
             Row(Pad(Shown(appName).value, NameWidth),
                 Pad(Shown(status).value, StatusWidth),
                 Pad(Decimal(attempts), AttemptsWidth)),
             Rule, action, Fence]
  {
    var nameCell := Pad(Shown(appName).value, NameWidth);
    var statusCell := Pad(Shown(status).value, StatusWidth);
    var attemptsCell := Pad(Decimal(attempts), AttemptsWidth);
    var dataRow := Row(nameCell, statusCell, attemptsCell);
    assert MessageText(appName, status, attempts, action) == Ok(JoinLines(MessageLayout(dataRow, action)));
    NoBreakInPad(Shown(appName).value, NameWidth);
    NoBreakInPad(Shown(status).value, StatusWidth);
    NoBreakInPad(Decimal(attempts), AttemptsWidth);
    NoBreakInRow(nameCell, statusCell, attemptsCell);
    LayoutLines(dataRow, action);
  }

  /** The joined layout opens with a fence and a newline and closes with a newline and a fence. */
  lemma LayoutFenced(dataRow: string, action: string)
    ensures var text := JoinLines(MessageLayout(dataRow, action));
            |text| >= 8 && text[..4] == "```\n" && text[|text| - 4..] == "\n```"
  {
    JoinEnds(MessageLayout(dataRow, action));
  }

  /** Padding adds only spaces. */
  lemma NoBreakInPad(s: string, w: nat)
    requires '\n' !in s
    ensures '\n' !in Pad(s, w)
  {
    var r := Pad(s, w);
    forall i | 0 <= i < |r|
      ensures r[i] != '\n'
    {
      if i < |s| {
        assert r[i] == r[..|s|][i];
      }
    }
  }
}
