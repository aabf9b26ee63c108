/** podd.h and the parity functions of set_key.c. */
module DesParity {

  datatype Sixteen = Sixteen(
    e0: bv8, e1: bv8, e2: bv8, e3: bv8, e4: bv8, e5: bv8, e6: bv8, e7: bv8,
    e8: bv8, e9: bv8, e10: bv8, e11: bv8, e12: bv8, e13: bv8, e14: bv8, e15: bv8)
  {
    function At(x: bv8): bv8 {
      if x & 8 == 0 then
        if x & 7 == 0 then e0 else if x & 7 == 1 then e1 else if x & 7 == 2 then e2 else if x & 7 == 3 then e3
        else if x & 7 == 4 then e4 else if x & 7 == 5 then e5 else if x & 7 == 6 then e6 else e7
      else
        if x & 7 == 0 then e8 else if x & 7 == 1 then e9 else if x & 7 == 2 then e10 else if x & 7 == 3 then e11
        else if x & 7 == 4 then e12 else if x & 7 == 5 then e13 else if x & 7 == 6 then e14 else e15
    }
  }

  const ROW0 := Sixteen(1, 1, 2, 2, 4, 4, 7, 7, 8, 8, 11, 11, 13, 13, 14, 14)
  const ROW1 := Sixteen(16, 16, 19, 19, 21, 21, 22, 22, 25, 25, 26, 26, 28, 28, 31, 31)
  const ROW2 := Sixteen(32, 32, 35, 35, 37, 37, 38, 38, 41, 41, 42, 42, 44, 44, 47, 47)
  const ROW3 := Sixteen(49, 49, 50, 50, 52, 52, 55, 55, 56, 56, 59, 59, 61, 61, 62, 62)
  const ROW4 := Sixteen(64, 64, 67, 67, 69, 69, 70, 70, 73, 73, 74, 74, 76, 76, 79, 79)
  const ROW5 := Sixteen(81, 81, 82, 82, 84, 84, 87, 87, 88, 88, 91, 91, 93, 93, 94, 94)
  const ROW6 := Sixteen(97, 97, 98, 98, 100, 100, 103, 103, 104, 104, 107, 107, 109, 109, 110, 110)
  const ROW7 := Sixteen(112, 112, 115, 115, 117, 117, 118, 118, 121, 121, 122, 122, 124, 124, 127, 127)
  const ROW8 := Sixteen(128, 128, 131, 131, 133, 133, 134, 134, 137, 137, 138, 138, 140, 140, 143, 143)
  const ROW9 := Sixteen(145, 145, 146, 146, 148, 148, 151, 151, 152, 152, 155, 155, 157, 157, 158, 158)
  const ROWA := Sixteen(161, 161, 162, 162, 164, 164, 167, 167, 168, 168, 171, 171, 173, 173, 174, 174)
  const ROWB := Sixteen(176, 176, 179, 179, 181, 181, 182, 182, 185, 185, 186, 186, 188, 188, 191, 191)
  const ROWC := Sixteen(193, 193, 194, 194, 196, 196, 199, 199, 200, 200, 203, 203, 205, 205, 206, 206)
  const ROWD := Sixteen(208, 208, 211, 211, 213, 213, 214, 214, 217, 217, 218, 218, 220, 220, 223, 223)
  const ROWE := Sixteen(224, 224, 227, 227, 229, 229, 230, 230, 233, 233, 234, 234, 236, 236, 239, 239)
  const ROWF := Sixteen(241, 241, 242, 242, 244, 244, 247, 247, 248, 248, 251, 251, 253, 253, 254, 254)

  /** odd_parity[x]. */
  function OddParity(x: bv8): bv8 {
    var h := x >> 4;
    if h == 0 then ROW0.At(x)
    else if h == 1 then ROW1.At(x)
    else if h == 2 then ROW2.At(x)
    else if h == 3 then ROW3.At(x)
    else if h == 4 then ROW4.At(x)
    else if h == 5 then ROW5.At(x)
    else if h == 6 then ROW6.At(x)
    else if h == 7 then ROW7.At(x)
    else if h == 8 then ROW8.At(x)
    else if h == 9 then ROW9.At(x)
    else if h == 10 then ROWA.At(x)
    else if h == 11 then ROWB.At(x)
    else if h == 12 then ROWC.At(x)
    else if h == 13 then ROWD.At(x)
    else if h == 14 then ROWE.At(x)
    else ROWF.At(x)
  }

  /** The exclusive or of the bits of x. */
  function Parity(x: bv8): bv8 {
    (x ^ (x >> 1) ^ (x >> 2) ^ (x >> 3) ^ (x >> 4) ^ (x >> 5) ^ (x >> 6) ^ (x >> 7)) & 1
  }

  ghost predicate OddParityOf(x: bv8, y: bv8) {
    y & 0xfe == x & 0xfe && Parity(y) == 1
  }

  // The sixteen rows.

  lemma Row0IsOdd(x: bv8)
    requires x >> 4 == 0
    ensures OddParityOf(x, ROW0.At(x))
  {
  }

  lemma Row1IsOdd(x: bv8)
    requires x >> 4 == 1
    ensures OddParityOf(x, ROW1.At(x))
  {
  }

  lemma Row2IsOdd(x: bv8)
    requires x >> 4 == 2
    ensures OddParityOf(x, ROW2.At(x))
  {
  }

  lemma Row3IsOdd(x: bv8)
    requires x >> 4 == 3
    ensures OddParityOf(x, ROW3.At(x))
  {
  }

  lemma Row4IsOdd(x: bv8)
    requires x >> 4 == 4
    ensures OddParityOf(x, ROW4.At(x))
  {
  }

  lemma Row5IsOdd(x: bv8)
    requires x >> 4 == 5
    ensures OddParityOf(x, ROW5.At(x))
  {
  }

  lemma Row6IsOdd(x: bv8)
    requires x >> 4 == 6
    ensures OddParityOf(x, ROW6.At(x))
  {
  }

  lemma Row7IsOdd(x: bv8)
    requires x >> 4 == 7
    ensures OddParityOf(x, ROW7.At(x))
  {
  }

  lemma Row8IsOdd(x: bv8)
    requires x >> 4 == 8
    ensures OddParityOf(x, ROW8.At(x))
  {
  }

  lemma Row9IsOdd(x: bv8)
    requires x >> 4 == 9
    ensures OddParityOf(x, ROW9.At(x))
  {
  }

  lemma RowAIsOdd(x: bv8)
    requires x >> 4 == 10
    ensures OddParityOf(x, ROWA.At(x))
  {
  }

  lemma RowBIsOdd(x: bv8)
    requires x >> 4 == 11
    ensures OddParityOf(x, ROWB.At(x))
  {
  }

  lemma RowCIsOdd(x: bv8)
    requires x >> 4 == 12
    ensures OddParityOf(x, ROWC.At(x))
  {
  }

  lemma RowDIsOdd(x: bv8)
    requires x >> 4 == 13
    ensures OddParityOf(x, ROWD.At(x))
  {
  }

  lemma RowEIsOdd(x: bv8)
    requires x >> 4 == 14
    ensures OddParityOf(x, ROWE.At(x))
  {
  }

  lemma RowFIsOdd(x: bv8)
    requires x >> 4 == 15
    ensures OddParityOf(x, ROWF.At(x))
  {
  }

  /** Every entry of the table keeps the upper seven bits and has an odd number of ones. */
  lemma OddParityIsOdd(x: bv8)
    ensures OddParityOf(x, OddParity(x))
  {
    hide Sixteen.At, OddParityOf;
    var h := x >> 4;
    if h == 0 {
      Row0IsOdd(x);
    } else if h == 1 {
      Row1IsOdd(x);
    } else if h == 2 {
      Row2IsOdd(x);
    } else if h == 3 {
      Row3IsOdd(x);
    } else if h == 4 {
      Row4IsOdd(x);
    } else if h == 5 {
      Row5IsOdd(x);
    } else if h == 6 {
      Row6IsOdd(x);
    } else if h == 7 {
      Row7IsOdd(x);
    } else if h == 8 {
      Row8IsOdd(x);
    } else if h == 9 {
      Row9IsOdd(x);
    } else if h == 10 {
      RowAIsOdd(x);
    } else if h == 11 {
      RowBIsOdd(x);
    } else if h == 12 {
      RowCIsOdd(x);
    } else if h == 13 {
      RowDIsOdd(x);
    } else if h == 14 {
      RowEIsOdd(x);
    } else {
      LastRow(x);
      RowFIsOdd(x);
    }
  }

  lemma LastRow(x: bv8)
    requires x >> 4 != 0 && x >> 4 != 1 && x >> 4 != 2 && x >> 4 != 3 && x >> 4 != 4 && x >> 4 != 5 && x >> 4 != 6
    requires x >> 4 != 7 && x >> 4 != 8 && x >> 4 != 9 && x >> 4 != 10 && x >> 4 != 11 && x >> 4 != 12 && x >> 4 != 13
    requires x >> 4 != 14
    ensures x >> 4 == 15
  {
  }

  /** The table changes exactly the bytes whose number of ones is even. */
  lemma OddParityFixes(x: bv8)
    ensures OddParity(x) == x <==> Parity(x) == 1
  {
    hide OddParity;
    OddParityIsOdd(x);
    SameUpperBits(x, OddParity(x));
  }

  lemma SameUpperBits(x: bv8, y: bv8)
    requires y & 0xfe == x & 0xfe
    ensures y == x <==> Parity(y) == Parity(x)
  {
  }

  /** des_set_odd_parity: the whole key, byte by byte, in place. */
  method SetOddParity(key: array<bv8>)
    modifies key
    ensures forall i :: 0 <= i < key.Length ==> key[i] == OddParity(old(key[i]))
  {
    hide OddParity;
    for i := 0 to key.Length
      invariant forall j :: 0 <= j < i ==> key[j] == OddParity(old(key[j]))
      invariant forall j :: i <= j < key.Length ==> key[j] == old(key[j])
    {
      key[i] := OddParity(key[i]);
    }
  }

  /** check_parity: whether every byte of the key has an odd number of ones. */
  method CheckParity(key: array<bv8>) returns (ok: bool)
    ensures ok <==> forall i :: 0 <= i < key.Length ==> Parity(key[i]) == 1
  {
    hide OddParity, Parity;
    for i := 0 to key.Length
      invariant forall j :: 0 <= j < i ==> Parity(key[j]) == 1
    {
      OddParityFixes(key[i]);
      if key[i] != OddParity(key[i]) {
        return false;
      }
    }
    return true;
  }
}
