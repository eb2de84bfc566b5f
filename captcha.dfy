/**
 * The arithmetic captcha of the login page (raw_renew.js:26-31).
 *
 * The label text is searched with the regular expression
 * `(\d+)\s*([+-])\s*(\d+)` and the first match is evaluated. The search is
 * modelled on positions: `MatchAt` makes the one attempt the regular
 * expression engine makes at a start position, `FindFrom` tries the start
 * positions from left to right. The ghost predicate `Spans` is the
 * independent definition of "this span of the text matches the pattern".
 */
module Captcha {
  import opened Results

  /** `\d` of a JavaScript regular expression without the `u` flag: ASCII digits. */
  predicate IsDigit(c: char): (b: bool)
    ensures b <==> c in "0123456789"
    ensures b ==> !IsOperator(c)
  {
    '0' <= c <= '9'
  }

  /** `\s` of a JavaScript regular expression: the ECMAScript WhiteSpace and LineTerminator code points. */
  predicate IsSpace(c: char): (b: bool)
    ensures b ==> !IsDigit(c) && !IsOperator(c)
  {
    || c == '\t' || c == '\n' || c == '\U{000B}' || c == '\U{000C}' || c == '\r' || c == ' '
    || c == '\U{00A0}' || c == '\U{1680}' || '\U{2000}' <= c <= '\U{200A}'
    || c == '\U{2028}' || c == '\U{2029}' || c == '\U{202F}' || c == '\U{205F}'
    || c == '\U{3000}' || c == '\U{FEFF}'
  }

  /** The character class `[+-]`. */
  predicate IsOperator(c: char) {
    c == '+' || c == '-'
  }

  /** The two character classes the pattern repeats: `\d+` and `\s*`. */
  datatype Class = Digits | Spaces

  predicate InClass(c: char, cls: Class) {
    match cls
    case Digits => IsDigit(c)
    case Spaces => IsSpace(c)
  }

  /** Every character of s[lo..hi] belongs to `cls`. */
  predicate AllIn(s: string, lo: nat, hi: nat, cls: Class)
    requires lo <= hi <= |s|
  {
    forall k {:trigger InClass(s[k], cls)} :: lo <= k < hi ==> InClass(s[k], cls)
  }

  /** Length of the longest run of `cls` characters that starts at `i`: a greedy repetition. */
  function RunLength(s: string, i: nat, cls: Class): (n: nat)
    requires i <= |s|
    ensures i + n <= |s|
    ensures AllIn(s, i, i + n, cls)
    ensures i + n == |s| || !InClass(s[i + n], cls)
    decreases |s| - i
  {
    if i < |s| && InClass(s[i], cls) then 1 + RunLength(s, i + 1, cls) else 0
  }

  /** A run of `cls` characters that is not followed by another one is the longest run. */
  lemma RunLengthUnique(s: string, i: nat, m: nat, cls: Class)
    requires i + m <= |s| && AllIn(s, i, i + m, cls)
    requires i + m == |s| || !InClass(s[i + m], cls)
    ensures m == RunLength(s, i, cls)
  {
  }

  /** A slice of a run is itself a run. */
  lemma SliceAllIn(s: string, lo: nat, hi: nat, cls: Class)
    requires lo <= hi <= |s| && AllIn(s, lo, hi, cls)
    ensures AllIn(s[lo..hi], 0, hi - lo, cls)
  {
  }

  /** A run of `cls` characters is no longer than the longest run. */
  lemma RunLengthMaximal(s: string, i: nat, m: nat, cls: Class)
    requires i + m <= |s| && AllIn(s, i, i + m, cls)
    ensures m <= RunLength(s, i, cls)
  {
  }

  /**
   * Positions of one match of the pattern: the first operand is
   * s[start..leftEnd], the operator s[opAt], the second operand
   * s[rightStart..rightEnd]; the gaps between them are whitespace.
   */
  datatype Span = Span(start: nat, leftEnd: nat, opAt: nat, rightStart: nat, rightEnd: nat)

  /** `m` is a way for `(\d+)\s*([+-])\s*(\d+)` to match the text `s`. */
  predicate Spans(s: string, m: Span) {
    && m.start < m.leftEnd <= m.opAt < m.rightStart < m.rightEnd <= |s|
    && AllIn(s, m.start, m.leftEnd, Digits)
    && AllIn(s, m.leftEnd, m.opAt, Spaces)
    && IsOperator(s[m.opAt])
    && AllIn(s, m.opAt + 1, m.rightStart, Spaces)
    && AllIn(s, m.rightStart, m.rightEnd, Digits)
  }

  /** The pattern has some match that starts at position `i`. */
  ghost predicate MatchesAt(s: string, i: nat) {
    exists m: Span :: m.start == i && Spans(s, m)
  }

  /**
   * Every match starting at a given position has the same first operand,
   * whitespace and operator, and a second operand no longer than the
   * longest digit run: digits, whitespace and operators are disjoint classes.
   */
  lemma SpanShape(s: string, m: Span)
    ensures Spans(s, m) ==>
      && m.leftEnd == m.start + RunLength(s, m.start, Digits)
      && m.opAt == m.leftEnd + RunLength(s, m.leftEnd, Spaces)
      && m.rightStart == m.opAt + 1 + RunLength(s, m.opAt + 1, Spaces)
      && m.rightEnd <= m.rightStart + RunLength(s, m.rightStart, Digits)
  {
    if Spans(s, m) {
      assert m.leftEnd == m.start + RunLength(s, m.start, Digits) by {
        if m.leftEnd < m.opAt {
          assert InClass(s[m.leftEnd], Spaces);
        }
        RunLengthUnique(s, m.start, m.leftEnd - m.start, Digits);
      }
      assert m.opAt == m.leftEnd + RunLength(s, m.leftEnd, Spaces) by {
        RunLengthUnique(s, m.leftEnd, m.opAt - m.leftEnd, Spaces);
      }
      assert m.rightStart == m.opAt + 1 + RunLength(s, m.opAt + 1, Spaces) by {
        assert InClass(s[m.rightStart], Digits);
        RunLengthUnique(s, m.opAt + 1, m.rightStart - m.opAt - 1, Spaces);
      }
      assert m.rightEnd <= m.rightStart + RunLength(s, m.rightStart, Digits) by {
        RunLengthMaximal(s, m.rightStart, m.rightEnd - m.rightStart, Digits);
      }
    }
  }

  /**
   * `r` is the match a backtracking engine reports at its start position:
   * every match there agrees with it up to the second operand, which is
   * longest in `r` because `\d+` is greedy.
   */
  ghost predicate Preferred(s: string, r: Span) {
    forall m: Span :: m.start == r.start && Spans(s, m) ==>
      m.leftEnd == r.leftEnd && m.opAt == r.opAt &&
      m.rightStart == r.rightStart && m.rightEnd <= r.rightEnd
  }

  /** A match that starts where `r` does agrees with `r` up to its second operand, which is no longer. */
  lemma SameStart(s: string, r: Span, m: Span)
    requires Spans(s, r) && m.start == r.start
    requires r.rightEnd == |s| || !IsDigit(s[r.rightEnd])
    ensures Spans(s, m) ==>
      m.leftEnd == r.leftEnd && m.opAt == r.opAt &&
      m.rightStart == r.rightStart && m.rightEnd <= r.rightEnd
  {
    assert r.rightEnd == r.rightStart + RunLength(s, r.rightStart, Digits) by {
      assert r.rightEnd == |s| || !InClass(s[r.rightEnd], Digits);
      RunLengthUnique(s, r.rightStart, r.rightEnd - r.rightStart, Digits);
    }
    SpanShape(s, r);
    SpanShape(s, m);
  }

  /** A match whose second operand cannot be extended is the one the engine prefers. */
  lemma PreferredWhenMaximal(s: string, r: Span)
    requires Spans(s, r)
    requires r.rightEnd == |s| || !IsDigit(s[r.rightEnd])
    ensures Preferred(s, r)
  {
    forall m: Span | m.start == r.start && Spans(s, m)
      ensures m.leftEnd == r.leftEnd && m.opAt == r.opAt
      ensures m.rightStart == r.rightStart && m.rightEnd <= r.rightEnd
    {
      SameStart(s, r, m);
    }
  }


  /** No match starts at `i` when the text there is not digits, whitespace and an operator. */
  lemma NoOperator(s: string, i: nat, leftEnd: nat, opAt: nat)
    requires i <= |s| && leftEnd == i + RunLength(s, i, Digits)
    requires opAt == leftEnd + RunLength(s, leftEnd, Spaces)
    requires leftEnd == i || opAt == |s| || !IsOperator(s[opAt])
    ensures !MatchesAt(s, i)
  {
    forall m: Span | m.start == i
      ensures !Spans(s, m)
    {
      SpanShape(s, m);
    }
  }

  /** No match starts at `i` when the operator found there is not followed by whitespace and a digit. */
  lemma NoSecondOperand(s: string, i: nat, leftEnd: nat, opAt: nat, rightStart: nat)
    requires i <= |s| && leftEnd == i + RunLength(s, i, Digits)
    requires opAt == leftEnd + RunLength(s, leftEnd, Spaces) && opAt < |s|
    requires rightStart == opAt + 1 + RunLength(s, opAt + 1, Spaces)
    requires RunLength(s, rightStart, Digits) == 0
    ensures !MatchesAt(s, i)
  {
    forall m: Span | m.start == i
      ensures !Spans(s, m)
    {
      SpanShape(s, m);
    }
  }

  /** Greedy runs of digits, whitespace, one operator, whitespace and digits form a match that cannot be extended. */
  lemma GreedyRuns(s: string, m: Span)
    requires m.start <= |s| && m.leftEnd == m.start + RunLength(s, m.start, Digits)
    requires m.opAt == m.leftEnd + RunLength(s, m.leftEnd, Spaces)
    requires m.leftEnd > m.start && m.opAt < |s| && IsOperator(s[m.opAt])
    requires m.rightStart == m.opAt + 1 + RunLength(s, m.opAt + 1, Spaces)
    requires m.rightEnd == m.rightStart + RunLength(s, m.rightStart, Digits) && m.rightEnd > m.rightStart
    ensures Spans(s, m) && MatchesAt(s, m.start)
    ensures m.rightEnd == |s| || !IsDigit(s[m.rightEnd])
  {
    assert m.rightEnd == |s| || !InClass(s[m.rightEnd], Digits);
  }

  /**
   * The one attempt of the regular expression at start position `i`. Each
   * greedy run stops at a character its class excludes, and no shorter run
   * can be followed by what comes next, so the attempt never backtracks.
   */
  function MatchAt(s: string, i: nat): (r: Option<Span>)
    requires i <= |s|
    ensures r.Some? ==> r.value.start == i && Spans(s, r.value)
    ensures r.Some? ==> r.value.rightEnd == |s| || !IsDigit(s[r.value.rightEnd])
    ensures r.None? <==> !MatchesAt(s, i)
  {
    var leftEnd := i + RunLength(s, i, Digits);
    var opAt := leftEnd + RunLength(s, leftEnd, Spaces);
    if leftEnd == i || opAt == |s| || !IsOperator(s[opAt]) then
      NoOperator(s, i, leftEnd, opAt);
      None
    else
      var rightStart := opAt + 1 + RunLength(s, opAt + 1, Spaces);
      var rightEnd := rightStart + RunLength(s, rightStart, Digits);
      if rightEnd == rightStart then
        NoSecondOperand(s, i, leftEnd, opAt, rightStart);
        None
      else
        GreedyRuns(s, Span(i, leftEnd, opAt, rightStart, rightEnd));
        Some(Span(i, leftEnd, opAt, rightStart, rightEnd))
  }

  /** The match `MatchAt` reports is the one a backtracking engine prefers at that position. */
  lemma MatchAtPreferred(s: string, i: nat)
    requires i <= |s|
    ensures MatchAt(s, i).Some? ==> Preferred(s, MatchAt(s, i).value)
  {
    if MatchAt(s, i).Some? {
      PreferredWhenMaximal(s, MatchAt(s, i).value);
    }
  }

  /** `String.prototype.match` without the `g` flag, searching from position `i` on. */
  function FindFrom(s: string, i: nat): (r: Option<Span>)
    requires i <= |s|
    ensures r.Some? ==> i <= r.value.start <= |s| && MatchAt(s, r.value.start) == r
    ensures r.Some? ==> forall j :: i <= j < r.value.start ==> !MatchesAt(s, j)
    ensures r.None? ==> forall j :: i <= j <= |s| ==> !MatchesAt(s, j)
    decreases |s| - i
  {
    match MatchAt(s, i)
    case Some(m) => Some(m)
    case None => if i == |s| then None else FindFrom(s, i + 1)
  }

  /** The leftmost match of the pattern in `s`, if there is one. */
  function Find(s: string): (r: Option<Span>)
    ensures r.Some? ==> Spans(s, r.value) && MatchAt(s, r.value.start) == r
    ensures r.Some? ==> forall j :: 0 <= j < r.value.start ==> !MatchesAt(s, j)
    ensures r.None? <==> forall j :: 0 <= j <= |s| ==> !MatchesAt(s, j)
  {
    FindFrom(s, 0)
  }

  /** Each operand of a match is followed by a character that is not a digit. */
  lemma OperandEnds(s: string, m: Span)
    requires Spans(s, m)
    ensures !IsDigit(s[m.leftEnd]) && !IsDigit(s[m.rightStart - 1])
  {
    if m.leftEnd < m.opAt {
      assert InClass(s[m.leftEnd], Spaces);
    }
    if m.opAt < m.rightStart - 1 {
      assert InClass(s[m.rightStart - 1], Spaces);
    }
  }

  /** A match preceded by a digit can be extended to start one position earlier. */
  lemma ExtendLeft(s: string, m: Span)
    requires Spans(s, m)
    ensures m.start > 0 && IsDigit(s[m.start - 1]) ==> MatchesAt(s, m.start - 1)
  {
    if m.start > 0 && IsDigit(s[m.start - 1]) {
      var earlier := m.(start := m.start - 1);
      assert InClass(s[m.start - 1], Digits);
      assert Spans(s, earlier);
    }
  }

  /** The leftmost match starts at the beginning of a digit run: position 0 or after a non-digit. */
  lemma {:induction false} StartsDigitRun(s: string, m: Span)
    requires Find(s).Some? && Find(s).value == m
    ensures m.start == 0 || !IsDigit(s[m.start - 1])
  {
    ExtendLeft(s, m);
  }

  /**
   * Both operands of the reported match are maximal digit runs: the match
   * starts at the beginning of a digit run and each operand is followed by a
   * non-digit or the end of the text.
   */
  lemma {:induction false} OperandsMaximal(s: string)
    requires Find(s).Some?
    ensures var m := Find(s).value;
      && (m.start == 0 || !IsDigit(s[m.start - 1]))
      && !IsDigit(s[m.leftEnd])
      && !IsDigit(s[m.rightStart - 1])
      && (m.rightEnd == |s| || !IsDigit(s[m.rightEnd]))
  {
    var m := Find(s).value;
    assert m.start == 0 || !IsDigit(s[m.start - 1]) by {
      StartsDigitRun(s, m);
    }
    assert !IsDigit(s[m.leftEnd]) && !IsDigit(s[m.rightStart - 1]) by {
      OperandEnds(s, m);
    }
    assert m.rightEnd == |s| || !IsDigit(s[m.rightEnd]) by {
      assert MatchAt(s, m.start) == Find(s);
    }
  }

  /** A match whose second operand cannot be extended is the one reported at its start. */
  lemma MatchAtMaximal(s: string, m: Span)
    requires Spans(s, m)
    requires m.rightEnd == |s| || !IsDigit(s[m.rightEnd])
    ensures MatchAt(s, m.start).Some? && MatchAt(s, m.start).value == m
  {
    assert MatchesAt(s, m.start);
    PreferredWhenMaximal(s, m);
    MatchAtPreferred(s, m.start);
    var r := MatchAt(s, m.start).value;
    assert r.rightEnd <= m.rightEnd;
  }

  /** When no match starts before `i` and one starts at `i`, the leftmost match is the one at `i`. */
  lemma FindFirst(s: string, i: nat)
    requires i <= |s| && MatchesAt(s, i)
    requires forall j :: 0 <= j < i ==> !MatchesAt(s, j)
    ensures Find(s) == MatchAt(s, i)
  {
  }

  /** No match starts at a character that is not a digit. */
  lemma NoMatchAtNonDigit(s: string, j: nat)
    requires j < |s| && !IsDigit(s[j])
    ensures !MatchesAt(s, j)
  {
    forall m: Span | m.start == j
      ensures !Spans(s, m)
    {
      assert Spans(s, m) ==> InClass(s[j], Digits);
    }
  }

  /** Value of a decimal digit. */
  function DigitValue(c: char): (d: nat)
    requires IsDigit(c)
    ensures d < 10
  {
    (c as int) - ('0' as int)
  }

  /** `10` raised to `n`. */
  function Pow10(n: nat): nat {
    if n == 0 then 1 else 10 * Pow10(n - 1)
  }

  /**
   * `Number(ds)` for a string of decimal digits, as an unbounded integer:
   * below `10^|ds|`, and at least `10^(|ds|-1)` without a leading zero.
   */
  function DecimalValue(ds: string): (v: nat)
    requires AllIn(ds, 0, |ds|, Digits)
    ensures v < Pow10(|ds|)
    ensures ds != [] && ds[0] != '0' ==> Pow10(|ds| - 1) <= v
  {
    if ds == [] then 0 else
      assert InClass(ds[|ds| - 1], Digits);
      10 * DecimalValue(ds[..|ds| - 1]) + DigitValue(ds[|ds| - 1])
  }

  /** Leading zeros do not change the value of an operand. */
  lemma {:induction false} LeadingZero(ds: string)
    requires AllIn(ds, 0, |ds|, Digits)
    ensures DecimalValue(['0'] + ds) == DecimalValue(ds)
  {
    if ds != [] {
      assert (['0'] + ds)[..|ds|] == ['0'] + ds[..|ds| - 1];
      LeadingZero(ds[..|ds| - 1]);
    }
  }

  /** The decimal numeral of `n`, as the captcha label shows it. */
  function Decimal(n: nat): (ds: string)
    ensures |ds| >= 1
    ensures AllIn(ds, 0, |ds|, Digits)
    ensures DecimalValue(ds) == n
  {
    var last := ('0' as int + n % 10) as char;
    if n < 10 then [last] else
      var ds := Decimal(n / 10) + [last];
      assert ds[..|ds| - 1] == Decimal(n / 10);
      ds
  }

  /** A captcha expression: two operands and the operator between them. */
  datatype Expr = Expr(left: nat, op: char, right: nat)

  /** The capture groups of the match `m`: its operands read as numbers, and its operator. */
  function Groups(s: string, m: Span): Expr
    requires Spans(s, m)
  {
    SliceAllIn(s, m.start, m.leftEnd, Digits);
    SliceAllIn(s, m.rightStart, m.rightEnd, Digits);
    Expr(DecimalValue(s[m.start..m.leftEnd]), s[m.opAt], DecimalValue(s[m.rightStart..m.rightEnd]))
  }

  /** The three capture groups of the leftmost match, operands read as numbers. */
  function Parse(s: string): (r: Option<Expr>)
    ensures r.Some? ==> IsOperator(r.value.op)
    ensures r.None? <==> forall j :: 0 <= j <= |s| ==> !MatchesAt(s, j)
  {
    match Find(s)
    case None => None
    case Some(m) => Some(Groups(s, m))
  }

  /** `op === '+' ? n1 + n2 : n1 - n2` */
  function Eval(e: Expr): (r: int)
    ensures -(e.right as int) <= r <= e.left + e.right
    ensures r < 0 ==> e.op != '+' && e.left < e.right
  {
    if e.op == '+' then e.left + e.right else e.left - e.right
  }

  /** Why the captcha could not be answered: the label holds no expression. */
  datatype CaptchaError = Unreadable

  /**
   * The captcha answer for the label text: an error when the text holds no
   * match, otherwise the sum or the difference of the operands of the
   * leftmost match. The difference is not clamped and may be negative.
   */
  function Solve(text: string): (r: Result<int, CaptchaError>)
    ensures r.Err? <==> forall j :: 0 <= j <= |text| ==> !MatchesAt(text, j)
    ensures r.Ok? && Parse(text).value.op == '+' ==>
      r.value == Parse(text).value.left + Parse(text).value.right
    ensures r.Ok? && Parse(text).value.op == '-' ==>
      r.value == Parse(text).value.left - Parse(text).value.right
  {
    match Parse(text)
    case None => Err(Unreadable)
    case Some(e) => Ok(Eval(e))
  }

  /** `querySelector(...)?.textContent || ''`: a missing label reads as the empty text. */
  function LabelText(element: Option<string>): (text: string)
    ensures element.None? ==> text == ""
    ensures element.Some? ==> text == element.value
  {
    match element
    case None => ""
    case Some(t) => t
  }

  /** The empty text, and so a missing label, holds no captcha. */
  lemma EmptyLabelUnreadable()
    ensures Solve(LabelText(None)) == Err(Unreadable)
  {
  }

  /** A copy of a run, placed at `lo`, is a run. */
  lemma AllInCopy(s: string, lo: nat, t: string, cls: Class)
    requires lo + |t| <= |s| && s[lo..lo + |t|] == t
    requires AllIn(t, 0, |t|, cls)
    ensures AllIn(s, lo, lo + |t|, cls)
  {
    forall k | lo <= k < lo + |t|
      ensures InClass(s[k], cls)
    {
      assert s[k] == t[k - lo];
      assert InClass(t[k - lo], cls);
    }
  }

  /**
   * The parts of a label that shows one expression: text without digits, a
   * digit string, whitespace, an operator, whitespace, a digit string, and
   * text that does not continue that digit string.
   */
  predicate WellLaidOut(pre: string, da: string, w1: string, op: char, w2: string, db: string, post: string) {
    && (forall k :: 0 <= k < |pre| ==> !IsDigit(pre[k]))
    && |da| >= 1 && AllIn(da, 0, |da|, Digits)
    && AllIn(w1, 0, |w1|, Spaces) && IsOperator(op) && AllIn(w2, 0, |w2|, Spaces)
    && |db| >= 1 && AllIn(db, 0, |db|, Digits)
    && (post == [] || !IsDigit(post[0]))
  }

  /**
   * Where the parts of a laid-out label sit in the text: they form a match
   * whose second operand cannot be extended, after text with no digits.
   */
  lemma {:induction false} LayoutSpans(text: string, pre: string, da: string, w1: string, op: char, w2: string, db: string, post: string)
    requires text == pre + da + w1 + [op] + w2 + db + post
    requires WellLaidOut(pre, da, w1, op, w2, db, post)
    ensures var m := Span(|pre|, |pre| + |da|, |pre| + |da| + |w1|, |pre| + |da| + |w1| + 1 + |w2|,
                          |pre| + |da| + |w1| + 1 + |w2| + |db|);
      && Spans(text, m)
      && text[m.start..m.leftEnd] == da && text[m.opAt] == op && text[m.rightStart..m.rightEnd] == db
      && (m.rightEnd == |text| || !IsDigit(text[m.rightEnd]))
      && (forall k :: 0 <= k < m.start ==> !IsDigit(text[k]))
  {
    var i := |pre|;
    var leftEnd := i + |da|;
    var opAt := leftEnd + |w1|;
    var rightStart := opAt + 1 + |w2|;
    var rightEnd := rightStart + |db|;
    assert text[..i] == pre;
    assert text[i..leftEnd] == da;
    assert text[leftEnd..opAt] == w1;
    assert text[opAt] == op;
    assert text[opAt + 1..rightStart] == w2;
    assert text[rightStart..rightEnd] == db;
    assert text[rightEnd..] == post;
    AllInCopy(text, i, da, Digits);
    AllInCopy(text, leftEnd, w1, Spaces);
    AllInCopy(text, opAt + 1, w2, Spaces);
    AllInCopy(text, rightStart, db, Digits);
    assert rightEnd < |text| ==> text[rightEnd] == post[0];
    assert forall k :: 0 <= k < i ==> text[k] == pre[k];
  }

  /** No match starts inside a prefix without digits. */
  lemma NoMatchInPrefix(s: string, n: nat)
    requires n <= |s|
    requires forall k :: 0 <= k < n ==> !IsDigit(s[k])
    ensures forall j :: 0 <= j < n ==> !MatchesAt(s, j)
  {
    forall j | 0 <= j < n
      ensures !MatchesAt(s, j)
    {
      NoMatchAtNonDigit(s, j);
    }
  }

  /**
   * A match whose second operand cannot be extended, with no match starting
   * before it, is the leftmost match.
   */
  lemma FindLeftmost(s: string, m: Span)
    requires Spans(s, m)
    requires m.rightEnd == |s| || !IsDigit(s[m.rightEnd])
    requires forall j :: 0 <= j < m.start ==> !MatchesAt(s, j)
    ensures Find(s).Some? && Find(s).value == m
  {
    MatchAtMaximal(s, m);
    FindFirst(s, m.start);
  }

  /**
   * The capture groups of the leftmost match: for a match whose second
   * operand cannot be extended and before which no match starts, the
   * expression read is that match's operands and operator.
   */
  lemma ParseSpan(s: string, m: Span)
    requires Spans(s, m)
    requires m.rightEnd == |s| || !IsDigit(s[m.rightEnd])
    requires forall j :: 0 <= j < m.start ==> !MatchesAt(s, j)
    ensures Parse(s) == Some(Groups(s, m))
  {
    FindLeftmost(s, m);
  }

  /** The answer is the operator applied to the operands of the leftmost match. */
  lemma SolveSpan(s: string, m: Span)
    requires Spans(s, m)
    requires m.rightEnd == |s| || !IsDigit(s[m.rightEnd])
    requires forall j :: 0 <= j < m.start ==> !MatchesAt(s, j)
    ensures Solve(s).Ok?
    ensures Groups(s, m).op == '+' ==> Solve(s).value == Groups(s, m).left + Groups(s, m).right
    ensures Groups(s, m).op == '-' ==> Solve(s).value == Groups(s, m).left - Groups(s, m).right
  {
    ParseSpan(s, m);
  }

  /**
   * A match whose second operand cannot be extended, after text with no
   * digits, gives the expression its two operands and its operator spell.
   */
  lemma ParseAfterNonDigits(s: string, m: Span, da: string, op: char, db: string)
    requires Spans(s, m)
    requires m.rightEnd == |s| || !IsDigit(s[m.rightEnd])
    requires forall k :: 0 <= k < m.start ==> !IsDigit(s[k])
    requires AllIn(da, 0, |da|, Digits) && AllIn(db, 0, |db|, Digits)
    requires s[m.start..m.leftEnd] == da && s[m.opAt] == op && s[m.rightStart..m.rightEnd] == db
    ensures Parse(s) == Some(Expr(DecimalValue(da), op, DecimalValue(db)))
  {
    NoMatchInPrefix(s, m.start);
    ParseSpan(s, m);
  }

  /** A well laid-out label is read as its two numbers and its operator. */
  lemma {:induction false} ParseLayout(pre: string, da: string, w1: string, op: char, w2: string, db: string, post: string)
    requires WellLaidOut(pre, da, w1, op, w2, db, post)
    ensures Parse(pre + da + w1 + [op] + w2 + db + post) ==
      Some(Expr(DecimalValue(da), op, DecimalValue(db)))
  {
    var text := pre + da + w1 + [op] + w2 + db + post;
    LayoutSpans(text, pre, da, w1, op, w2, db, post);
    var i := |pre|;
    ParseAfterNonDigits(text, Span(i, i + |da|, i + |da| + |w1|, i + |da| + |w1| + 1 + |w2|, i + |da| + |w1| + 1 + |w2| + |db|), da, op, db);
  }



  /**
   * A label that shows `a op b` (the operands as decimal numerals, one space
   * on each side of the operator), after text with no digits and before text
   * that does not continue the second numeral, is read as `a op b`.
   */
  lemma ParseRendered(pre: string, a: nat, op: char, b: nat, post: string)
    requires IsOperator(op)
    requires forall k :: 0 <= k < |pre| ==> !IsDigit(pre[k])
    requires post == [] || !IsDigit(post[0])
    ensures Parse(pre + Decimal(a) + " " + [op] + " " + Decimal(b) + post) == Some(Expr(a, op, b))
  {
    ParseLayout(pre, Decimal(a), " ", op, " ", Decimal(b), post);
  }

  /** The rendered label is answered with `a + b` or `a - b`. */
  lemma SolveRendered(pre: string, a: nat, op: char, b: nat, post: string)
    requires IsOperator(op)
    requires forall k :: 0 <= k < |pre| ==> !IsDigit(pre[k])
    requires post == [] || !IsDigit(post[0])
    ensures var text := pre + Decimal(a) + " " + [op] + " " + Decimal(b) + post;
      && Solve(text).Ok?
      && (op == '+' ==> Solve(text).value == a + b)
      && (op == '-' ==> Solve(text).value == a - b)
  {
    ParseRendered(pre, a, op, b, post);
  }

  /** Surrounding text is ignored: "x 12 + 34 y" reads as 12 + 34. */
  lemma ExampleSurrounded()
    ensures Parse("x 12 + 34 y") == Some(Expr(12, '+', 34))
  {
    assert "x " + "12" + " " + ['+'] + " " + "34" + " y" == "x 12 + 34 y";
    assert "12"[..1] == "1" && "34"[..1] == "3";
    assert DecimalValue("1") == 1 && DecimalValue("3") == 3;
    assert DecimalValue("12") == 12 && DecimalValue("34") == 34;
    ParseLayout("x ", "12", " ", '+', " ", "34", " y");
  }

  /** In "1 2+3" the digit at 0 is followed by whitespace and a digit, not an operator. */
  lemma NoMatchBeforeSecondDigit(s: string)
    requires s == "1 2+3"
    ensures !MatchesAt(s, 0) && !MatchesAt(s, 1)
  {
    assert RunLength(s, 0, Digits) == 1;
    assert RunLength(s, 1, Spaces) == 1;
    NoOperator(s, 0, 1, 2);
    NoMatchAtNonDigit(s, 1);
  }

  /** The leftmost match in "1 2+3" is "2+3", at positions 2 to 5. */
  lemma FindLeftmostExample(s: string)
    requires s == "1 2+3"
    ensures Find(s).Some? && Find(s).value == Span(2, 3, 3, 4, 5)
  {
    NoMatchBeforeSecondDigit(s);
    var m := Span(2, 3, 3, 4, 5);
    assert Spans(s, m);
    MatchAtMaximal(s, m);
    FindFirst(s, 2);
  }

  /** The match is leftmost and its first operand maximal: "1 2+3" reads as 2 + 3. */
  lemma ExampleLeftmost()
    ensures Parse("1 2+3") == Some(Expr(2, '+', 3))
  {
    var s := "1 2+3";
    assert s[2..3] == "2" && s[4..5] == "3";
    assert DecimalValue("2") == 2 && DecimalValue("3") == 3;
    FindLeftmostExample(s);
  }

  /** Subtraction is not clamped: "3 - 5" is answered with -2. */
  lemma ExampleNegative()
    ensures Solve("3 - 5").Ok? && Solve("3 - 5").value == -2
  {
    assert Decimal(3) == "3" && Decimal(5) == "5";
    assert "" + Decimal(3) + " " + ['-'] + " " + Decimal(5) + "" == "3 - 5";
    SolveRendered("", 3, '-', 5, "");
  }

  /** Leading zeros are harmless: "007+1" is answered with 8. */
  lemma ExampleLeadingZeros()
    ensures Solve("007+1").Ok? && Solve("007+1").value == 8
  {
    assert "" + "007" + "" + ['+'] + "" + "1" + "" == "007+1";
    assert "007" == ['0'] + "07" && "07" == ['0'] + "7";
    LeadingZero("07");
    LeadingZero("7");
    assert DecimalValue("007") == 7 && DecimalValue("1") == 1;
    ParseLayout("", "007", "", '+', "", "1", "");
  }

  /** The label of the login page, "7 + 2", is answered with 9. */
  lemma ExampleLoginPage()
    ensures Solve("7 + 2").Ok? && Solve("7 + 2").value == 9
  {
    assert Decimal(7) == "7" && Decimal(2) == "2";
    assert "" + Decimal(7) + " " + ['+'] + " " + Decimal(2) + "" == "7 + 2";
    SolveRendered("", 7, '+', 2, "");
  }
}
