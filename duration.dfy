/**
 * format_duration (yosaver.py:56-61): a length in seconds split into hours,
 * minutes and seconds and rendered as `H:MM:SS` when there is at least one
 * hour, `M:SS` otherwise. Python's `//` and `%` by a positive divisor agree
 * with Dafny's `/` and `%` on the non-negative inputs modelled here.
 */
module Duration {
  import opened Wrappers
  import opened Decimal

  /** The `hours`, `minutes` and `secs` of yosaver.py:58-60. */
  function Split(seconds: nat): (r: (nat, nat, nat))
    ensures r.0 * 3600 + r.1 * 60 + r.2 == seconds
    ensures r.1 < 60 && r.2 < 60
  {
    var hours := seconds / 3600;
    var minutes := (seconds % 3600) / 60;
    var secs := seconds % 60;
    ModOfMod(seconds);
    (hours, minutes, secs)
  }

  lemma ModOfMod(n: nat)
    ensures (n % 3600) % 60 == n % 60
    ensures (n % 3600) / 60 * 60 + n % 60 == n % 3600
  {
    var q := n / 3600;
    var m := n % 3600;
    assert n == 60 * (60 * q) + m;
    assert (n % 3600) / 60 * 60 + (n % 3600) % 60 == n % 3600;
    ModShift(60 * q, m);
  }

  lemma ModShift(k: nat, m: nat)
    ensures (60 * k + m) % 60 == m % 60
  {
    var d := m / 60;
    var r := m % 60;
    assert 60 * k + m == 60 * (k + d) + r;
  }

  /** `f"{n:02d}"` for a value below 100: zero-padded to two digits. */
  function TwoDigits(n: nat): (r: string)
    requires n < 100
    ensures |r| == 2 && AllDigits(r)
    ensures ParseNat(r) == Some(n)
  {
    ParseDigits(n);
    if n < 10 then
      var r := "0" + Digits(n);
      assert r[..1] == "0" && ValueOf("0") == 0;
      r
    else Digits(n)
  }

  /**
   * format_duration (yosaver.py:56-61). Reading the rendered fields back
   * gives the original number of seconds, so no two lengths share a text.
   */
  function FormatDuration(seconds: nat): (r: string)
    ensures ParseDuration(r) == Some(seconds)
  {
    var (hours, minutes, secs) := Split(seconds);
    ParseDigits(hours);
    ParseDigits(minutes);
    if hours > 0 then
      FieldsTriple(Digits(hours), TwoDigits(minutes), TwoDigits(secs));
      Digits(hours) + ":" + TwoDigits(minutes) + ":" + TwoDigits(secs)
    else
      FieldsPair(Digits(minutes), TwoDigits(secs));
      Digits(minutes) + ":" + TwoDigits(secs)
  }

  // ---------------------------------------------------------------------------
  // Reading a rendered duration back

  /** The `:`-separated fields of a text, as `s.split(":")` gives them. */
  function Fields(s: string): (r: seq<string>)
    ensures |r| >= 1
    decreases |s|
  {
    if s == [] then [[]]
    else if s[0] == ':' then [[]] + Fields(s[1..])
    else var rest := Fields(s[1..]); [[s[0]] + rest[0]] + rest[1..]
  }

  /** Reads `M:SS` or `H:MM:SS` back into a number of seconds. */
  function ParseDuration(s: string): Option<nat> {
    var f := Fields(s);
    if |f| == 2 then
      match (ParseNat(f[0]), ParseNat(f[1]))
      case (Some(m), Some(sec)) => Some(m * 60 + sec)
      case _ => None
    else if |f| == 3 then
      match (ParseNat(f[0]), ParseNat(f[1]), ParseNat(f[2]))
      case (Some(h), Some(m), Some(sec)) => Some(h * 3600 + m * 60 + sec)
      case _ => None
    else None
  }

  predicate NoColon(s: string) {
    forall i :: 0 <= i < |s| ==> s[i] != ':'
  }

  lemma {:induction false} FieldsSingle(a: string)
    requires NoColon(a)
    ensures Fields(a) == [a]
    decreases |a|
  {
    if a != [] {
      FieldsSingle(a[1..]);
      assert [a[0]] + a[1..] == a;
    }
  }

  lemma {:induction false} FieldsJoin(a: string, b: string)
    requires NoColon(a)
    ensures Fields(a + ":" + b) == [a] + Fields(b)
    decreases |a|
  {
    var s := a + ":" + b;
    if a == [] {
      assert s[1..] == b;
    } else {
      assert s[1..] == a[1..] + ":" + b;
      FieldsJoin(a[1..], b);
      assert [a[0]] + a[1..] == a;
    }
  }

  lemma FieldsPair(a: string, b: string)
    requires NoColon(a) && NoColon(b)
    ensures Fields(a + ":" + b) == [a, b]
  {
    FieldsSingle(b);
    FieldsJoin(a, b);
  }

  lemma FieldsTriple(a: string, b: string, c: string)
    requires NoColon(a) && NoColon(b) && NoColon(c)
    ensures Fields(a + ":" + b + ":" + c) == [a, b, c]
  {
    FieldsPair(b, c);
    assert a + ":" + b + ":" + c == a + ":" + (b + ":" + c);
    FieldsJoin(a, b + ":" + c);
  }

  /** The rendered fields: three when there is at least one hour, two otherwise. */
  lemma FormatFields(seconds: nat)
    ensures var (h, m, s) := Split(seconds);
            Fields(FormatDuration(seconds))
            == if seconds >= 3600 then [Digits(h), TwoDigits(m), TwoDigits(s)]
               else [Digits(m), TwoDigits(s)]
  {
    var (h, m, s) := Split(seconds);
    if seconds >= 3600 {
      assert h > 0;
      FieldsTriple(Digits(h), TwoDigits(m), TwoDigits(s));
    } else {
      assert h == 0;
      FieldsPair(Digits(m), TwoDigits(s));
    }
  }

  /**
   * Shape of the text: `H:MM:SS` exactly when `seconds >= 3600`, else `M:SS`;
   * the seconds (and, in the long form, the minutes) always take two digits;
   * the leading field has no leading zero unless it is `0`.
   */
  lemma FormatShape(seconds: nat)
    ensures var f := Fields(FormatDuration(seconds));
            && (|f| == 3 <==> seconds >= 3600)
            && (|f| == 2 <==> seconds < 3600)
            && (forall i :: 1 <= i < |f| ==> |f[i]| == 2 && AllDigits(f[i]))
            && |f[0]| >= 1 && AllDigits(f[0]) && (f[0][0] == '0' ==> |f[0]| == 1)
  {
    FormatFields(seconds);
  }

  /** Zero seconds renders as `0:00`. */
  lemma FormatZero()
    ensures FormatDuration(0) == "0:00"
  {
  }
}
