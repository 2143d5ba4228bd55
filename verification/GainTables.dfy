/** The two RXVGA1 tables of the driver, which turn codes into gains and back, and the formula they are made from. */
module GainTables {
  import opened BitOps

  const RXVGA1_GAIN_MIN := 5
  const RXVGA1_GAIN_MAX := 30

  // Gain in dB of each RXVGA1 code; the table in the driver rises in these steps.
  function Code2Val(code: nat): (r: nat)
    requires code <= 120
    ensures RXVGA1_GAIN_MIN <= r <= RXVGA1_GAIN_MAX
  {
    if code < 8 then 5 else if code < 21 then 6 else if code < 32 then 7 else if code < 43 then 8 else
    if code < 52 then 9 else if code < 60 then 10 else if code < 67 then 11 else if code < 74 then 12 else
    if code < 80 then 13 else if code < 85 then 14 else if code < 90 then 15 else if code < 94 then 16 else
    if code < 97 then 17 else if code < 101 then 18 else if code < 104 then 19 else if code < 106 then 20 else
    if code < 108 then 21 else if code < 111 then 22 else if code < 112 then 23 else if code < 114 then 24 else
    if code < 116 then 25 else if code < 117 then 26 else if code < 118 then 27 else if code < 119 then 28 else
    if code < 120 then 29 else 30
  }

  // The code chosen for each gain.
  function Val2Code(gain: nat): (r: Byte)
    requires gain <= RXVGA1_GAIN_MAX
    ensures r <= 120
  {
    if gain == 6 then 14 else if gain == 7 then 26 else if gain == 8 then 37 else if gain == 9 then 47 else
    if gain == 10 then 56 else if gain == 11 then 63 else if gain == 12 then 70 else if gain == 13 then 76 else
    if gain == 14 then 82 else if gain == 15 then 87 else if gain == 16 then 91 else if gain == 17 then 95 else
    if gain == 18 then 99 else if gain == 19 then 102 else if gain == 20 then 104 else
    if gain == 21 then 107 else if gain == 22 then 109 else if gain == 23 then 111 else
    if gain == 24 then 113 else if gain == 25 then 114 else if gain == 26 then 116 else
    if gain == 27 then 117 else if gain == 28 then 118 else if gain == 29 then 119 else
    if gain == 30 then 120 else 2
  }

  // On the whole range of the amplifier the two tables undo each other.
  lemma TablesInverse(gain: nat)
    requires 5 <= gain <= 30
    ensures Code2Val(Val2Code(gain)) == gain
  {}

  // ---- The formula behind the tables ----

  function Pow8(x: nat): nat {
    x * x * (x * x) * (x * x * (x * x))
  }

  function Pow20(x: nat): nat {
    Pow8(x) * Pow8(x) * (x * x * (x * x))
  }

  function Pow40(x: nat): nat {
    Pow8(x) * Pow8(x) * Pow8(x) * Pow8(x) * Pow8(x)
  }

  function PowerOfTen(n: nat): nat {
    if n == 0 then 1 else 10 * PowerOfTen(n - 1)
  }

  // A code stands for 5 + 20 * log10(127 / (127 - code)) dB. The gain is a whole number nearest to that: the 40th power
  // of the ratio lies between 10^(2 * gain - 11) and 10^(2 * gain - 9).
  predicate GainIsNearest(code: nat, gain: nat)
    requires code <= 120 && gain >= 5
  {
    var ratio := Pow40(127 - code);
    ratio * PowerOfTen(2 * gain - 10) <= 10 * Pow40(127) <= ratio * PowerOfTen(2 * gain - 8)
  }

  // The code is a whole number nearest to the one at which the formula gives the gain.
  predicate CodeIsNearest(gain: nat, code: nat)
    requires code <= 120 && gain >= 5
  {
    Pow20(253 - 2 * code) * PowerOfTen(gain - 5) <= Pow20(254) <= Pow20(255 - 2 * code) * PowerOfTen(gain - 5)
  }

  lemma Product(a: nat, b: nat, c: nat, d: nat)
    requires a <= b && c <= d
    ensures a * c <= b * d
  {
    assert a * c <= b * c <= b * d;
  }

  lemma Pow8InOrder(x: nat, y: nat)
    requires x <= y
    ensures Pow8(x) <= Pow8(y)
  {
    Product(x, y, x, y);
    Product(x * x, y * y, x * x, y * y);
    Product(x * x * (x * x), y * y * (y * y), x * x * (x * x), y * y * (y * y));
  }

  lemma Pow40InOrder(x: nat, y: nat)
    requires x <= y
    ensures Pow40(x) <= Pow40(y)
  {
    hide Pow8;
    Pow8InOrder(x, y);
    var a, b := Pow8(x), Pow8(y);
    Product(a, b, a, b);
    Product(a * a, b * b, a, b);
    Product(a * a * a, b * b * b, a, b);
    Product(a * a * a * a, b * b * b * b, a, b);
  }

  // Between two codes for which a gain is nearest it is so as well.
  lemma NearestBetween(code: nat, gain: nat, low: nat, high: nat)
    requires low <= code <= high <= 120 && gain >= 5
    requires Pow40(127 - low) * PowerOfTen(2 * gain - 10) <= 10 * Pow40(127)
    requires 10 * Pow40(127) <= Pow40(127 - high) * PowerOfTen(2 * gain - 8)
    ensures GainIsNearest(code, gain)
  {
    hide Pow40, PowerOfTen;
    Pow40InOrder(127 - code, 127 - low);
    Pow40InOrder(127 - high, 127 - code);
    Product(Pow40(127 - code), Pow40(127 - low), PowerOfTen(2 * gain - 10), PowerOfTen(2 * gain - 10));
    Product(Pow40(127 - high), Pow40(127 - code), PowerOfTen(2 * gain - 8), PowerOfTen(2 * gain - 8));
  }

  lemma TenTimes(n: nat)
    ensures PowerOfTen(n + 1) == 10 * PowerOfTen(n)
  {}

  // The powers of ten in use.
  lemma Decades()
    ensures PowerOfTen(0) == 1
    ensures PowerOfTen(1) == 10
    ensures PowerOfTen(2) == 100
    ensures PowerOfTen(3) == 1_000
    ensures PowerOfTen(4) == 10_000
    ensures PowerOfTen(5) == 100_000
    ensures PowerOfTen(6) == 1_000_000
    ensures PowerOfTen(7) == 10_000_000
    ensures PowerOfTen(8) == 100_000_000
    ensures PowerOfTen(9) == 1_000_000_000
    ensures PowerOfTen(10) == 10_000_000_000
    ensures PowerOfTen(11) == 100_000_000_000
    ensures PowerOfTen(12) == 1_000_000_000_000
    ensures PowerOfTen(13) == 10_000_000_000_000
    ensures PowerOfTen(14) == 100_000_000_000_000
    ensures PowerOfTen(15) == 1_000_000_000_000_000
    ensures PowerOfTen(16) == 10_000_000_000_000_000
    ensures PowerOfTen(17) == 100_000_000_000_000_000
    ensures PowerOfTen(18) == 1_000_000_000_000_000_000
    ensures PowerOfTen(19) == 10_000_000_000_000_000_000
    ensures PowerOfTen(20) == 100_000_000_000_000_000_000
    ensures PowerOfTen(21) == 1_000_000_000_000_000_000_000
    ensures PowerOfTen(22) == 10_000_000_000_000_000_000_000
    ensures PowerOfTen(23) == 100_000_000_000_000_000_000_000
    ensures PowerOfTen(24) == 1_000_000_000_000_000_000_000_000
    ensures PowerOfTen(25) == 10_000_000_000_000_000_000_000_000
    ensures PowerOfTen(26) == 100_000_000_000_000_000_000_000_000
  {
    assert PowerOfTen(0) == 1;
    hide PowerOfTen;
    TenTimes(0);
    TenTimes(1);
    TenTimes(2);
    TenTimes(3);
    TenTimes(4);
    TenTimes(5);
    TenTimes(6);
    TenTimes(7);
    TenTimes(8);
    TenTimes(9);
    TenTimes(10);
    TenTimes(11);
    TenTimes(12);
    TenTimes(13);
    TenTimes(14);
    TenTimes(15);
    TenTimes(16);
    TenTimes(17);
    TenTimes(18);
    TenTimes(19);
    TenTimes(20);
    TenTimes(21);
    TenTimes(22);
    TenTimes(23);
    TenTimes(24);
    TenTimes(25);
  }

  lemma HigherDecades()
    ensures PowerOfTen(28) == 10_000_000_000_000_000_000_000_000_000
    ensures PowerOfTen(30) == 1_000_000_000_000_000_000_000_000_000_000
    ensures PowerOfTen(32) == 100_000_000_000_000_000_000_000_000_000_000
    ensures PowerOfTen(34) == 10_000_000_000_000_000_000_000_000_000_000_000
    ensures PowerOfTen(36) == 1_000_000_000_000_000_000_000_000_000_000_000_000
    ensures PowerOfTen(38) == 100_000_000_000_000_000_000_000_000_000_000_000_000
    ensures PowerOfTen(40) == 10_000_000_000_000_000_000_000_000_000_000_000_000_000
    ensures PowerOfTen(42) == 1_000_000_000_000_000_000_000_000_000_000_000_000_000_000
    ensures PowerOfTen(44) == 100_000_000_000_000_000_000_000_000_000_000_000_000_000_000
    ensures PowerOfTen(46) == 10_000_000_000_000_000_000_000_000_000_000_000_000_000_000_000
    ensures PowerOfTen(48) == 1_000_000_000_000_000_000_000_000_000_000_000_000_000_000_000_000
    ensures PowerOfTen(50) == 100_000_000_000_000_000_000_000_000_000_000_000_000_000_000_000_000
    ensures PowerOfTen(52) == 10_000_000_000_000_000_000_000_000_000_000_000_000_000_000_000_000_000
  {
    Decades();
    hide PowerOfTen;
    TenTimes(26);
    TenTimes(27);
    TenTimes(28);
    TenTimes(29);
    TenTimes(30);
    TenTimes(31);
    TenTimes(32);
    TenTimes(33);
    TenTimes(34);
    TenTimes(35);
    TenTimes(36);
    TenTimes(37);
    TenTimes(38);
    TenTimes(39);
    TenTimes(40);
    TenTimes(41);
    TenTimes(42);
    TenTimes(43);
    TenTimes(44);
    TenTimes(45);
    TenTimes(46);
    TenTimes(47);
    TenTimes(48);
    TenTimes(49);
    TenTimes(50);
    TenTimes(51);
  }

  lemma NearestFrom5(code: nat)
    requires code < 43
    ensures GainIsNearest(code, Code2Val(code))
  {
    hide GainIsNearest, PowerOfTen;
    Decades();
    HigherDecades();
    if code < 8 {
      NearestBetween(code, 5, 0, 7);
    } else if code < 21 {
      NearestBetween(code, 6, 8, 20);
    } else if code < 32 {
      NearestBetween(code, 7, 21, 31);
    } else {
      NearestBetween(code, 8, 32, 42);
    }
  }

  lemma NearestFrom9(code: nat)
    requires 43 <= code < 74
    ensures GainIsNearest(code, Code2Val(code))
  {
    hide GainIsNearest, PowerOfTen;
    Decades();
    HigherDecades();
    if code < 52 {
      NearestBetween(code, 9, 43, 51);
    } else if code < 60 {
      NearestBetween(code, 10, 52, 59);
    } else if code < 67 {
      NearestBetween(code, 11, 60, 66);
    } else {
      NearestBetween(code, 12, 67, 73);
    }
  }

  lemma NearestFrom13(code: nat)
    requires 74 <= code < 94
    ensures GainIsNearest(code, Code2Val(code))
  {
    hide GainIsNearest, PowerOfTen;
    Decades();
    HigherDecades();
    if code < 80 {
      NearestBetween(code, 13, 74, 79);
    } else if code < 85 {
      NearestBetween(code, 14, 80, 84);
    } else if code < 90 {
      NearestBetween(code, 15, 85, 89);
    } else {
      NearestBetween(code, 16, 90, 93);
    }
  }

  lemma NearestFrom17(code: nat)
    requires 94 <= code < 106
    ensures GainIsNearest(code, Code2Val(code))
  {
    hide GainIsNearest, PowerOfTen;
    Decades();
    HigherDecades();
    if code < 97 {
      NearestBetween(code, 17, 94, 96);
    } else if code < 101 {
      NearestBetween(code, 18, 97, 100);
    } else if code < 104 {
      NearestBetween(code, 19, 101, 103);
    } else {
      NearestBetween(code, 20, 104, 105);
    }
  }

  lemma NearestFrom21(code: nat)
    requires 106 <= code < 114
    ensures GainIsNearest(code, Code2Val(code))
  {
    hide GainIsNearest, PowerOfTen;
    Decades();
    HigherDecades();
    if code < 108 {
      NearestBetween(code, 21, 106, 107);
    } else if code < 111 {
      NearestBetween(code, 22, 108, 110);
    } else if code < 112 {
      NearestBetween(code, 23, 111, 111);
    } else {
      NearestBetween(code, 24, 112, 113);
    }
  }

  lemma NearestFrom25(code: nat)
    requires 114 <= code < 119
    ensures GainIsNearest(code, Code2Val(code))
  {
    hide GainIsNearest, PowerOfTen;
    Decades();
    HigherDecades();
    if code < 116 {
      NearestBetween(code, 25, 114, 115);
    } else if code < 117 {
      NearestBetween(code, 26, 116, 116);
    } else if code < 118 {
      NearestBetween(code, 27, 117, 117);
    } else {
      NearestBetween(code, 28, 118, 118);
    }
  }

  lemma NearestFrom29(code: nat)
    requires 119 <= code < 121
    ensures GainIsNearest(code, Code2Val(code))
  {
    hide GainIsNearest, PowerOfTen;
    Decades();
    HigherDecades();
    if code < 120 {
      NearestBetween(code, 29, 119, 119);
    } else {
      NearestBetween(code, 30, 120, 120);
    }
  }

  // The table of gains holds the nearest whole number of dB for every code.
  lemma Code2ValIsNearest(code: nat)
    requires code <= 120
    ensures GainIsNearest(code, Code2Val(code))
  {
    hide GainIsNearest, Code2Val;
    if code < 43 {
      NearestFrom5(code);
    } else if code < 74 {
      NearestFrom9(code);
    } else if code < 94 {
      NearestFrom13(code);
    } else if code < 106 {
      NearestFrom17(code);
    } else if code < 114 {
      NearestFrom21(code);
    } else if code < 119 {
      NearestFrom25(code);
    } else {
      NearestFrom29(code);
    }
  }

  lemma CodeFits(gain: nat, code: nat, below: nat, above: nat)
    requires code <= 120 && gain >= 5 && below == Pow20(253 - 2 * code) && above == Pow20(255 - 2 * code)
    requires below * PowerOfTen(gain - 5) <= Pow20(254) <= above * PowerOfTen(gain - 5)
    ensures CodeIsNearest(gain, code)
  {
    hide Pow20, PowerOfTen;
  }

  lemma CodesFrom6(gain: nat)
    requires 6 <= gain <= 10
    ensures CodeIsNearest(gain, Val2Code(gain))
  {
    hide PowerOfTen, CodeIsNearest;
    Decades();
    match gain {
      case 6 => CodeFits(6, 14, Pow20(253 - 2 * 14), Pow20(255 - 2 * 14));
      case 7 => CodeFits(7, 26, Pow20(253 - 2 * 26), Pow20(255 - 2 * 26));
      case 8 => CodeFits(8, 37, Pow20(253 - 2 * 37), Pow20(255 - 2 * 37));
      case 9 => CodeFits(9, 47, Pow20(253 - 2 * 47), Pow20(255 - 2 * 47));
      case _ => CodeFits(10, 56, Pow20(253 - 2 * 56), Pow20(255 - 2 * 56));
    }
  }

  lemma CodesFrom11(gain: nat)
    requires 11 <= gain <= 15
    ensures CodeIsNearest(gain, Val2Code(gain))
  {
    hide PowerOfTen, CodeIsNearest;
    Decades();
    match gain {
      case 11 => CodeFits(11, 63, Pow20(253 - 2 * 63), Pow20(255 - 2 * 63));
      case 12 => CodeFits(12, 70, Pow20(253 - 2 * 70), Pow20(255 - 2 * 70));
      case 13 => CodeFits(13, 76, Pow20(253 - 2 * 76), Pow20(255 - 2 * 76));
      case 14 => CodeFits(14, 82, Pow20(253 - 2 * 82), Pow20(255 - 2 * 82));
      case _ => CodeFits(15, 87, Pow20(253 - 2 * 87), Pow20(255 - 2 * 87));
    }
  }

  lemma CodesFrom16(gain: nat)
    requires 16 <= gain <= 20
    ensures CodeIsNearest(gain, Val2Code(gain))
  {
    hide PowerOfTen, CodeIsNearest;
    Decades();
    match gain {
      case 16 => CodeFits(16, 91, Pow20(253 - 2 * 91), Pow20(255 - 2 * 91));
      case 17 => CodeFits(17, 95, Pow20(253 - 2 * 95), Pow20(255 - 2 * 95));
      case 18 => CodeFits(18, 99, Pow20(253 - 2 * 99), Pow20(255 - 2 * 99));
      case 19 => CodeFits(19, 102, Pow20(253 - 2 * 102), Pow20(255 - 2 * 102));
      case _ => CodeFits(20, 104, Pow20(253 - 2 * 104), Pow20(255 - 2 * 104));
    }
  }

  lemma CodesFrom21(gain: nat)
    requires 21 <= gain <= 23
    ensures CodeIsNearest(gain, Val2Code(gain))
  {
    hide PowerOfTen, CodeIsNearest;
    Decades();
    match gain {
      case 21 => CodeFits(21, 107, Pow20(253 - 2 * 107), Pow20(255 - 2 * 107));
      case 22 => CodeFits(22, 109, Pow20(253 - 2 * 109), Pow20(255 - 2 * 109));
      case _ => CodeFits(23, 111, Pow20(253 - 2 * 111), Pow20(255 - 2 * 111));
    }
  }

  lemma CodesFrom24(gain: nat)
    requires 24 <= gain <= 26
    ensures CodeIsNearest(gain, Val2Code(gain))
  {
    hide PowerOfTen, CodeIsNearest;
    Decades();
    match gain {
      case 24 => CodeFits(24, 113, Pow20(253 - 2 * 113), Pow20(255 - 2 * 113));
      case 25 => CodeFits(25, 114, Pow20(253 - 2 * 114), Pow20(255 - 2 * 114));
      case _ => CodeFits(26, 116, Pow20(253 - 2 * 116), Pow20(255 - 2 * 116));
    }
  }

  lemma CodesFrom27(gain: nat)
    requires 27 <= gain <= 28
    ensures CodeIsNearest(gain, Val2Code(gain))
  {
    hide PowerOfTen, CodeIsNearest;
    Decades();
    match gain {
      case 27 => CodeFits(27, 117, Pow20(253 - 2 * 117), Pow20(255 - 2 * 117));
      case _ => CodeFits(28, 118, Pow20(253 - 2 * 118), Pow20(255 - 2 * 118));
    }
  }

  lemma CodesFrom29(gain: nat)
    requires 29 <= gain <= 30
    ensures CodeIsNearest(gain, Val2Code(gain))
  {
    hide PowerOfTen, CodeIsNearest;
    Decades();
    match gain {
      case 29 => CodeFits(29, 119, Pow20(253 - 2 * 119), Pow20(255 - 2 * 119));
      case _ => CodeFits(30, 120, Pow20(253 - 2 * 120), Pow20(255 - 2 * 120));
    }
  }

  // The table of codes holds the nearest code for every gain but the lowest one.
  lemma Val2CodeIsNearest(gain: nat)
    requires 6 <= gain <= 30
    ensures CodeIsNearest(gain, Val2Code(gain))
  {
    hide CodeIsNearest, Val2Code;
    if gain <= 10 {
      CodesFrom6(gain);
    } else if gain <= 15 {
      CodesFrom11(gain);
    } else if gain <= 20 {
      CodesFrom16(gain);
    } else if gain <= 23 {
      CodesFrom21(gain);
    } else if gain <= 26 {
      CodesFrom24(gain);
    } else if gain <= 28 {
      CodesFrom27(gain);
    } else {
      CodesFrom29(gain);
    }
  }
}
