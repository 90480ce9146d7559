/** The fingerprint that suppresses a reset which already failed for logical reasons:
    `internal/reset/engine.go`, `fingerprint`. */
module Fingerprint {
  import opened Basics
  import opened Text
  import opened Codex

  function FormatInt(i: int): string {
    if i < 0 then "-" + Decimal(-i) else Decimal(i)
  }

  function ResetAt(w: Option<Window>): int {
    if w.None? then 0 else w.value.resetAt
  }

  function Windows(u: Usage): string {
    FormatInt(ResetAt(u.primary)) + [':'] + FormatInt(ResetAt(u.secondary))
  }

  function Of(accountRef: string, creditRef: string, u: Usage, availableCount: int): string {
    accountRef + ['+'] + (creditRef + ['+'] + (Windows(u) + ['+'] + FormatInt(availableCount)))
  }

  lemma FormatIntInjective(i: int, j: int)
    requires FormatInt(i) == FormatInt(j)
    ensures i == j
  {
    DecimalDigits(if i < 0 then -i else i);
    DecimalDigits(if j < 0 then -j else j);
    assert i < 0 <==> FormatInt(i)[0] == '-';
    assert j < 0 <==> FormatInt(j)[0] == '-';
    if i < 0 {
      assert FormatInt(i)[1..] == Decimal(-i) && FormatInt(j)[1..] == Decimal(-j);
      DecimalInjective(-i, -j);
    } else {
      DecimalInjective(i, j);
    }
  }

  lemma FormatIntPlain(i: int, sep: char)
    requires sep in ":+"
    ensures sep !in FormatInt(i)
  {
    DecimalDigits(if i < 0 then -i else i);
  }

  // Two decisions share a fingerprint exactly when they concern the same account and credit,
  // the same available count, and windows that are present alike and end at the same instants.
  lemma FingerprintInjective(r: string, c: string, u: Usage, n: int, r': string, c': string, u': Usage, n': int)
    requires '+' !in r && '+' !in r' && '+' !in c && '+' !in c'
    requires ValidWindows(u) && ValidWindows(u')
    ensures Of(r, c, u, n) == Of(r', c', u', n') <==>
            r == r' && c == c' && n == n'
            && u.primary.Some? == u'.primary.Some? && ResetAt(u.primary) == ResetAt(u'.primary)
            && u.secondary.Some? == u'.secondary.Some? && ResetAt(u.secondary) == ResetAt(u'.secondary)
  {
    if Of(r, c, u, n) == Of(r', c', u', n') {
      var tail, tail' := Windows(u) + ['+'] + FormatInt(n), Windows(u') + ['+'] + FormatInt(n');
      SplitUnique(r, c + ['+'] + tail, r', c' + ['+'] + tail', '+');
      SplitUnique(c, tail, c', tail', '+');
      WindowsPlain(u);
      WindowsPlain(u');
      SplitUnique(Windows(u), FormatInt(n), Windows(u'), FormatInt(n'), '+');
      FormatIntInjective(n, n');
      FormatIntPlain(ResetAt(u.primary), ':');
      FormatIntPlain(ResetAt(u'.primary), ':');
      SplitUnique(FormatInt(ResetAt(u.primary)), FormatInt(ResetAt(u.secondary)),
                  FormatInt(ResetAt(u'.primary)), FormatInt(ResetAt(u'.secondary)), ':');
      FormatIntInjective(ResetAt(u.primary), ResetAt(u'.primary));
      FormatIntInjective(ResetAt(u.secondary), ResetAt(u'.secondary));
    }
  }

  lemma WindowsPlain(u: Usage)
    ensures '+' !in Windows(u)
  {
    FormatIntPlain(ResetAt(u.primary), '+');
    FormatIntPlain(ResetAt(u.secondary), '+');
  }
}
