/** The payment reference of `app/billing/service.py`: `PAY-` and the id, zero-padded to six digits. */
module PaymentReference {
  import opened Decimals

  const PREFIX := "PAY-"
  const PLACEHOLDER := "PENDING"
  const WIDTH := 6

  function ZeroPadded(s: string, width: nat): string
    decreases width - |s|
  {
    if |s| >= width then s else ZeroPadded("0" + s, width)
  }

  function Reference(id: nat): string {
    PREFIX + ZeroPadded(Decimal(id), WIDTH)
  }

  lemma {:induction false} LeadingZero(s: string)
    requires AllDigits(s)
    ensures AllDigits("0" + s) && Number("0" + s) == Number(s)
  {
    if s == "" {
      assert ("0" + s)[..0] == "";
    } else {
      LeadingZero(s[..|s| - 1]);
      assert ("0" + s)[..|s|] == "0" + s[..|s| - 1];
    }
  }

  lemma {:induction false} PaddingKeepsNumber(s: string, width: nat)
    requires AllDigits(s)
    ensures AllDigits(ZeroPadded(s, width)) && Number(ZeroPadded(s, width)) == Number(s)
    ensures |ZeroPadded(s, width)| == if |s| < width then width else |s|
    decreases width - |s|
  {
    if |s| >= width {
    } else {
      LeadingZero(s);
      PaddingKeepsNumber("0" + s, width);
    }
  }

  /** Round trip: the digits after `PAY-`, six or more, give the id back. */
  lemma ReferenceDenotesId(id: nat)
    ensures "PAY-" <= Reference(id) && |Reference(id)| == 4 + (if id < 1000000 then 6 else |Decimal(id)|)
    ensures AllDigits(Reference(id)[4..]) && Number(Reference(id)[4..]) == id
  {
    DecimalDenotes(id);
    PaddingKeepsNumber(Decimal(id), WIDTH);
    SixDigitsIff(id);
    assert Reference(id)[4..] == ZeroPadded(Decimal(id), WIDTH);
  }

  lemma {:induction false} PowerOfDigits(s: string, k: nat)
    requires AllDigits(s) && |s| <= k
    ensures Number(s) < Power10(k)
    decreases k
  {
    if s == "" {
      PowerPositive(k);
    } else {
      PowerOfDigits(s[..|s| - 1], k - 1);
    }
  }

  function Power10(k: nat): nat {
    if k == 0 then 1 else 10 * Power10(k - 1)
  }

  lemma {:induction false} PowerPositive(k: nat)
    ensures Power10(k) > 0
  {
    if k == 0 {
    } else {
      PowerPositive(k - 1);
    }
  }

  /** Numbers below a million have at most six digits, and only those. */
  lemma SixDigitsIff(n: nat)
    ensures |Decimal(n)| <= 6 <==> n < 1000000
  {
    DecimalDenotes(n);
    assert Power10(6) == 1000000;
    if |Decimal(n)| <= 6 {
      PowerOfDigits(Decimal(n), 6);
    }
    if n < 1000000 {
        ShortDecimal(n, 6);
    }
  }

  lemma {:induction false} ShortDecimal(n: nat, k: nat)
    requires k > 0 && n < Power10(k)
    ensures |Decimal(n)| <= k
  {
    if n < 10 {
    } else {
      assert n / 10 < Power10(k - 1);
      ShortDecimal(n / 10, k - 1);
    }
  }

  lemma ReferencesDistinct(a: nat, b: nat)
    ensures Reference(a) == Reference(b) <==> a == b
    ensures Reference(a) != "PENDING" && PLACEHOLDER == "PENDING"
  {
    ReferenceDenotesId(a);
    ReferenceDenotesId(b);
    assert Reference(a)[1] == 'A' && "PENDING"[1] == 'E';
  }
}
