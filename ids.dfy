/** Record ids: a kind prefix followed by the decimal rendering of the
    millisecond clock reading at creation (`prof-${Date.now()}` and so on).
    The clock reading is a parameter of the operations that create records. */
module Ids {
  const ProfessionalPrefix := "prof-"
  const PatientPrefix := "pat-"
  const AppointmentPrefix := "app-"

  function DigitChar(d: nat): (c: char)
    requires d < 10
    ensures '0' <= c <= '9'
  {
    (48 + d) as char
  }

  function DigitValue(c: char): nat {
    if '0' <= c <= '9' then c as int - 48 else 0
  }

  /** Decimal rendering of `n`, without leading zeros. */
  function Decimal(n: nat): (s: string)
    ensures |s| > 0
    decreases n
  {
    if n < 10 then [DigitChar(n)] else Decimal(n / 10) + [DigitChar(n % 10)]
  }

  /** Reads a string of decimal digits back as a number. */
  function ParseDecimal(s: string): nat {
    if s == [] then 0 else 10 * ParseDecimal(s[..|s| - 1]) + DigitValue(s[|s| - 1])
  }

  lemma {:induction false} ParseDecimalInvertsDecimal(n: nat)
    ensures ParseDecimal(Decimal(n)) == n
    decreases n
  {
    if n >= 10 {
      ParseDecimalInvertsDecimal(n / 10);
      var s := Decimal(n);
      assert s[..|s| - 1] == Decimal(n / 10);
    }
  }

  function NewId(prefix: string, now: nat): (id: string)
    ensures |id| > |prefix| && id[..|prefix|] == prefix
  {
    prefix + Decimal(now)
  }

  /** Two records of one kind get the same id only when they were created at
      the same clock reading. */
  lemma NewIdInjective(prefix: string, now1: nat, now2: nat)
    requires NewId(prefix, now1) == NewId(prefix, now2)
    ensures now1 == now2
  {
    var id1, id2 := NewId(prefix, now1), NewId(prefix, now2);
    assert Decimal(now1) == id1[|prefix|..];
    assert Decimal(now2) == id2[|prefix|..];
    ParseDecimalInvertsDecimal(now1);
    ParseDecimalInvertsDecimal(now2);
  }
}
