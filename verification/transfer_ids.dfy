/** Transfer identifiers. A request created when the ledger holds `n` records is named
    `transfer_<n>_<clock>`, where `<n>` is written in decimal and `<clock>` is the wall-clock
    time of creation, an opaque string here. Only the counter part makes names unique. */
module TransferIds {

  predicate IsDigit(c: char) {
    '0' <= c <= '9'
  }

  function DigitChar(d: nat): (c: char)
    requires d < 10
    ensures IsDigit(c)
    ensures c as int == '0' as int + d
  {
    ('0' as int + d) as char
  }

  /** Decimal notation of `n`, as Python's `str` writes it: no sign, no leading zeros. */
  function NatToString(n: nat): (s: string)
    ensures 1 <= |s|
    ensures n < 10 <==> |s| == 1
    ensures forall k :: 0 <= k < |s| ==> IsDigit(s[k])
    decreases n
  {
    if n < 10 then [DigitChar(n)] else NatToString(n / 10) + [DigitChar(n % 10)]
  }

  /** Different numbers are written differently. */
  lemma {:induction false} NatToStringInjective(n: nat, m: nat)
    requires NatToString(n) == NatToString(m)
    ensures n == m
    decreases n
  {
    var s := NatToString(n);
    if n < 10 {
      assert |NatToString(m)| == 1;
      assert s[0] == DigitChar(n) && NatToString(m)[0] == DigitChar(m);
    } else {
      assert |NatToString(m)| != 1;
      assert s == NatToString(n / 10) + [DigitChar(n % 10)];
      assert NatToString(m) == NatToString(m / 10) + [DigitChar(m % 10)];
      assert s[|s| - 1] == DigitChar(n % 10) && s[|s| - 1] == DigitChar(m % 10);
      assert NatToString(n / 10) == s[..|s| - 1] == NatToString(m / 10);
      NatToStringInjective(n / 10, m / 10);
    }
  }

  const IdHead := "transfer_"

  /** Everything in an identifier before the clock reading. */
  function IdPrefix(n: nat): string {
    IdHead + NatToString(n) + "_"
  }

  /** The identifier given to the request created when the ledger holds `n` records. */
  function TransferId(n: nat, clock: string): (id: string)
    ensures HasCounter(id, n)
  {
    var id := IdPrefix(n) + clock;
    assert id[..|IdPrefix(n)|] == IdPrefix(n);
    id
  }

  /** `id` was issued with counter `n`. */
  predicate HasCounter(id: string, n: nat) {
    |IdPrefix(n)| <= |id| && id[..|IdPrefix(n)|] == IdPrefix(n)
  }

  /** The maximal run of decimal digits in `s` starting at position `k`. */
  function DigitsFrom(s: string, k: nat): string
    decreases |s| - k
  {
    if k < |s| && IsDigit(s[k]) then [s[k]] + DigitsFrom(s, k + 1) else []
  }

  lemma {:induction false} DigitsFromReads(s: string, k: nat, d: string)
    requires k + |d| < |s|
    requires forall j :: 0 <= j < |d| ==> s[k + j] == d[j] && IsDigit(d[j])
    requires !IsDigit(s[k + |d|])
    ensures DigitsFrom(s, k) == d
    decreases |d|
  {
    if |d| > 0 {
      assert s[k] == d[0];
      forall j | 0 <= j < |d[1..]|
        ensures s[k + 1 + j] == d[1..][j] && IsDigit(d[1..][j])
      {
        assert s[k + (j + 1)] == d[j + 1];
      }
      DigitsFromReads(s, k + 1, d[1..]);
      assert [d[0]] + d[1..] == d;
    }
  }

  /** The counter of an identifier can be read back from it. */
  lemma CounterReadsBack(id: string, n: nat)
    requires HasCounter(id, n)
    ensures DigitsFrom(id, |IdHead|) == NatToString(n)
  {
    var d := NatToString(n);
    var p := IdPrefix(n);
    assert p == IdHead + d + "_";
    forall j | 0 <= j < |d|
      ensures id[|IdHead| + j] == d[j] && IsDigit(d[j])
    {
      assert id[|IdHead| + j] == id[..|p|][|IdHead| + j] == p[|IdHead| + j];
    }
    assert id[|IdHead| + |d|] == p[|IdHead| + |d|] == '_';
    DigitsFromReads(id, |IdHead|, d);
  }

  /** An identifier carries one counter only, so requests created at different ledger
      lengths never share an identifier, whatever the clock says. */
  lemma CounterUnique(id: string, n: nat, m: nat)
    requires HasCounter(id, n) && HasCounter(id, m)
    ensures n == m
  {
    CounterReadsBack(id, n);
    CounterReadsBack(id, m);
    NatToStringInjective(n, m);
  }
}
