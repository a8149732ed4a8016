/** Telemetry envelopes and their names (src/distributed.rs, src/spool.rs).

    JSON text is abstract: a payload is either null, a process alert, or some other document.  The
    decimal forms matter, because a message id embeds two of them and spool files are found again
    by sorting their names. */
module Telemetry {
  import opened Prelude

  datatype Kind = ProcessLifecycle | ProcessAlertKind | ProcessSnapshot | SystemSnapshot | CausalGraphKind | Health

  datatype ProcessAlert = ProcessAlert(
    instanceId: string, state: string, previousState: Option<string>, ruleId: string, processName: string,
    pid: int, ppid: int, eventType: string, observedNs: nat)

  datatype Payload = Null | AlertPayload(alert: ProcessAlert) | Document(text: string)

  datatype Envelope = Envelope(
    schemaVersion: nat, messageId: string, nodeId: string, sequence: nat, observedNs: nat, kind: Kind,
    payload: Payload, attributes: map<string, string>)

  const SCHEMA_VERSION := 1

  predicate ValidEnvelope(e: Envelope) {
    && e.schemaVersion == SCHEMA_VERSION
    && !IsBlank(e.messageId) && !IsBlank(e.nodeId)
    && e.observedNs != 0 && !e.payload.Null?
  }

  function Digit(d: nat): (c: char)
    requires d < 10
    ensures c as int == '0' as int + d
  {
    ('0' as int + d) as char
  }

  /** Decimal form without leading zeros. */
  function Decimal(n: nat): (s: string)
    ensures s != "" && '-' !in s
  {
    if n < 10 then [Digit(n)] else Decimal(n / 10) + [Digit(n % 10)]
  }

  lemma {:induction false} DecimalInjective(a: nat, b: nat)
    requires Decimal(a) == Decimal(b)
    ensures a == b
  {
    var x, y := Decimal(a), Decimal(b);
    assert x[|x| - 1] == Digit(a % 10) && y[|y| - 1] == Digit(b % 10);
    assert |Decimal(a / 10)| >= 1 && |Decimal(b / 10)| >= 1;
    if a >= 10 && b >= 10 {
      assert x[..|x| - 1] == Decimal(a / 10) && y[..|y| - 1] == Decimal(b / 10);
      DecimalInjective(a / 10, b / 10);
    }
  }

  function MessageId(node: string, observedNs: nat, sequence: nat): string {
    node + ['-'] + Decimal(observedNs) + ['-'] + Decimal(sequence)
  }

  /** Cutting at the last dash recovers what was joined with it. */
  lemma LastDash(p: string, x: string, q: string, y: string)
    requires p + ['-'] + x == q + ['-'] + y && '-' !in x && '-' !in y
    ensures p == q && x == y
  {
    var s := p + ['-'] + x;
    assert s[|p|] == '-' && s[|q|] == '-';
    assert forall i :: |p| < i < |s| ==> s[i] == x[i - |p| - 1];
    assert forall i :: |q| < i < |s| ==> s[i] == y[i - |q| - 1];
    assert |p| == |q|;
    assert s[..|p|] == p && s[..|q|] == q;
    assert s[|p| + 1..] == x && s[|q| + 1..] == y;
  }

  /** Ids of one node never clash. */
  lemma MessageIdInjective(node: string, o1: nat, s1: nat, o2: nat, s2: nat)
    requires MessageId(node, o1, s1) == MessageId(node, o2, s2)
    ensures o1 == o2 && s1 == s2
  {
    hide Decimal;
    LastDash(node + ['-'] + Decimal(o1), Decimal(s1), node + ['-'] + Decimal(o2), Decimal(s2));
    LastDash(node, Decimal(o1), node, Decimal(o2));
    DecimalInjective(s1, s2);
    DecimalInjective(o1, o2);
  }

  // ---- Spool file names -----------------------------------------------------------------------------

  const NAME_DIGITS := 20

  function Power10(w: nat): (p: nat)
    ensures p > 0
  {
    if w == 0 then 1 else 10 * Power10(w - 1)
  }

  /** The `w` low decimal digits of `n`, zero padded. */
  function Padded(n: nat, w: nat): (s: string)
    ensures |s| == w
  {
    if w == 0 then "" else Padded(n / 10, w - 1) + [Digit(n % 10)]
  }

  function FileName(sequence: nat): string {
    Padded(sequence, NAME_DIGITS) + ".json"
  }

  /** Byte order of names, as `sort` uses it. */
  predicate LexLess(a: string, b: string) {
    if b == "" then false
    else if a == "" then true
    else if a[0] != b[0] then a[0] < b[0]
    else LexLess(a[1..], b[1..])
  }

  lemma {:induction false} LexTransitive(a: string, b: string, c: string)
    requires LexLess(a, b) && LexLess(b, c)
    ensures LexLess(a, c)
  {
    if a != "" && a[0] == b[0] && b[0] == c[0] {
      LexTransitive(a[1..], b[1..], c[1..]);
    }
  }

  lemma {:induction false} LexTotal(a: string, b: string)
    requires a != b
    ensures LexLess(a, b) || LexLess(b, a)
  {
    if a != "" && b != "" && a[0] == b[0] {
      assert a == [a[0]] + a[1..] && b == [b[0]] + b[1..];
      LexTotal(a[1..], b[1..]);
    }
  }

  lemma {:induction false} LexIrreflexive(a: string)
    ensures !LexLess(a, a)
  {
    if a != "" {
      LexIrreflexive(a[1..]);
    }
  }

  lemma {:induction false} LexLessLast(a: string, b: string, c: char, d: char)
    requires |a| == |b|
    ensures LexLess(a + [c], b + [d]) <==> LexLess(a, b) || (a == b && c < d)
  {
    if a == "" {
      assert (a + [c])[1..] == "" && (b + [d])[1..] == "";
    } else {
      assert (a + [c])[1..] == a[1..] + [c] && (b + [d])[1..] == b[1..] + [d];
      LexLessLast(a[1..], b[1..], c, d);
      assert a == b <==> a[0] == b[0] && a[1..] == b[1..] by {
        assert a == [a[0]] + a[1..] && b == [b[0]] + b[1..];
      }
    }
  }

  lemma {:induction false} LexLessSuffix(a: string, b: string, suffix: string)
    requires |a| == |b|
    ensures LexLess(a + suffix, b + suffix) <==> LexLess(a, b)
    decreases |suffix|
  {
    if suffix == "" {
      assert a + suffix == a && b + suffix == b;
    } else {
      assert a + suffix == (a + suffix[..1]) + suffix[1..] && b + suffix == (b + suffix[..1]) + suffix[1..];
      LexLessSuffix(a + suffix[..1], b + suffix[..1], suffix[1..]);
      assert suffix[..1] == [suffix[0]];
      LexLessLast(a, b, suffix[0], suffix[0]);
    }
  }

  lemma {:induction false} PaddedOrder(a: nat, b: nat, w: nat)
    requires a < Power10(w) && b < Power10(w)
    ensures LexLess(Padded(a, w), Padded(b, w)) <==> a < b
    ensures Padded(a, w) == Padded(b, w) <==> a == b
  {
    if w > 0 {
      PaddedOrder(a / 10, b / 10, w - 1);
      var x, y := Padded(a / 10, w - 1), Padded(b / 10, w - 1);
      LexLessLast(x, y, Digit(a % 10), Digit(b % 10));
      assert (x + [Digit(a % 10)])[w - 1] == Digit(a % 10) && (y + [Digit(b % 10)])[w - 1] == Digit(b % 10);
      assert (x + [Digit(a % 10)])[..w - 1] == x && (y + [Digit(b % 10)])[..w - 1] == y;
    }
  }

  lemma Power10Values()
    ensures Power10(10) == 10_000_000_000 && Power10(20) == 100_000_000_000_000_000_000
  {
    assert Power10(5) == 100_000;
    assert Power10(10) == 100_000 * Power10(5);
    assert Power10(15) == 100_000 * Power10(10);
    assert Power10(20) == 100_000 * Power10(15);
  }

  /** Twenty digits hold every u64, so sorting file names sorts sequence numbers. */
  lemma FileNameOrder(a: nat, b: nat)
    requires a < TWO_64 && b < TWO_64
    ensures LexLess(FileName(a), FileName(b)) <==> a < b
    ensures FileName(a) == FileName(b) <==> a == b
  {
    hide Padded, LexLess;
    Power10Values();
    PaddedOrder(a, b, NAME_DIGITS);
    LexLessSuffix(Padded(a, NAME_DIGITS), Padded(b, NAME_DIGITS), ".json");
    assert FileName(a)[..NAME_DIGITS] == Padded(a, NAME_DIGITS) && FileName(b)[..NAME_DIGITS] == Padded(b, NAME_DIGITS);
  }

  // ---- What the digits say ---------------------------------------------------------------------------------

  /** The number a row of decimal digits stands for. */
  function ValueOf(digits: string): int {
    if digits == "" then 0
    else 10 * ValueOf(digits[..|digits| - 1]) + (digits[|digits| - 1] as int - '0' as int)
  }

  lemma {:induction false} DecimalReads(n: nat)
    ensures ValueOf(Decimal(n)) == n && (n >= 10 ==> Decimal(n)[0] != '0')
    ensures forall c | c in Decimal(n) :: '0' <= c <= '9'
  {
    var s := Decimal(n);
    if n < 10 {
      assert s[..0] == "";
    } else {
      DecimalReads(n / 10);
      assert s[..|s| - 1] == Decimal(n / 10);
      if n / 10 < 10 {
        assert Decimal(n / 10) == [Digit(n / 10)] && Decimal(n / 10)[0] == Digit(n / 10);
      }
    }
  }

  lemma {:induction false} PaddedReads(n: nat, w: nat)
    requires n < Power10(w)
    ensures ValueOf(Padded(n, w)) == n && forall c | c in Padded(n, w) :: '0' <= c <= '9'
  {
    if w > 0 {
      PaddedReads(n / 10, w - 1);
      assert Padded(n, w)[..w - 1] == Padded(n / 10, w - 1);
    }
  }

  /** A record's file name is its sequence number in exactly twenty digits, and ".json". */
  lemma FileNameReads(sequence: nat)
    requires sequence < TWO_64
    ensures |FileName(sequence)| == 25 && FileName(sequence)[20..] == ".json"
    ensures ValueOf(FileName(sequence)[..20]) == sequence
    ensures forall c | c in FileName(sequence)[..20] :: '0' <= c <= '9'
  {
    hide Padded;
    Power10Values();
    PaddedReads(sequence, 20);
    assert FileName(sequence)[..20] == Padded(sequence, 20);
  }

  /** A message id is the node, the time and the sequence number, with dashes between them. */
  lemma MessageIdReads(node: string, observedNs: nat, sequence: nat)
    ensures var time, last := Decimal(observedNs), Decimal(sequence);
            && MessageId(node, observedNs, sequence) == node + "-" + time + "-" + last
            && ValueOf(time) == observedNs && ValueOf(last) == sequence
  {
    hide Decimal;
    DecimalReads(observedNs);
    DecimalReads(sequence);
  }
}
