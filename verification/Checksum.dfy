/** The internet checksum (src/ethernet.rs:135-147): section 3.1 of RFC 791 and section 1 of
    RFC 1071. */
module Checksum {
  import opened Bytes

  /** The plain sum of the big-endian words; an odd last byte is padded with a zero. */
  function WordSum(data: Data): nat {
    if data == [] then 0
    else if |data| == 1 then 0x100 * data[0]
    else FromBe16(data[0], data[1]) + WordSum(data[2..])
  }

  /** The one's-complement representative of a sum: zero for zero only. */
  function OnesComplement(sum: nat): U16 { if sum == 0 then 0 else 1 + (sum - 1) % 0xffff }

  function InternetChecksum(data: Data): U16 { 0xffff - OnesComplement(WordSum(data)) }

  /** Folding a carry back in keeps the sum's one's-complement value. */
  lemma FoldKeepsValue(sum: nat, more: nat)
    requires sum <= 0x1fffe
    ensures var folded := sum % 0x1_0000 + sum / 0x1_0000;
            folded <= 0xffff && OnesComplement(folded + more) == OnesComplement(sum + more)
  {
    if sum >= 0x1_0000 {
      assert sum / 0x1_0000 == 1;
      var a := sum - 0xffff + more - 1;
      assert (a + 0xffff) % 0xffff == a % 0xffff;
    }
  }

  /** Sixteen bits always suffice for the running sum, and every carry is accounted for. */
  method ComputeChecksum(data: Data) returns (r: U16)
    ensures r == InternetChecksum(data)
  {
    var sum: U32, i := 0, 0;
    while i < |data|
      invariant i <= |data| && sum <= 0xffff
      invariant OnesComplement(sum + WordSum(data[i..])) == OnesComplement(WordSum(data))
      decreases |data| - i
    {
      var rest := data[i..];
      var word: U16 := if |rest| >= 2 then FromBe16(rest[0], rest[1]) else FromBe16(rest[0], 0);
      var next := if |rest| >= 2 then i + 2 else |data|;
      assert WordSum(rest) == word + WordSum(data[next..]) by {
        assert |rest| >= 2 ==> rest[2..] == data[next..];
      }
      FoldKeepsValue(sum + word, WordSum(data[next..]));
      sum := sum + word;
      sum := sum % 0x1_0000 + sum / 0x1_0000;
      i := next;
    }
    assert data[i..] == [];
    r := 0xffff - sum;
  }

  lemma {:induction false} WordSumAppend(a: Data, b: Data)
    requires |a| % 2 == 0
    ensures WordSum(a + b) == WordSum(a) + WordSum(b)
  {
    if a == [] {
      assert a + b == b;
    } else {
      WordSumAppend(a[2..], b);
      assert (a + b)[2..] == a[2..] + b;
    }
  }

  /** An odd last byte counts as the high byte of a word. */
  lemma {:induction false} OddByteIsPadded(data: Data)
    requires |data| % 2 == 1
    ensures InternetChecksum(data) == InternetChecksum(data + [0])
  {
    var n := |data| - 1;
    WordSumAppend(data[..n], data[n..]);
    WordSumAppend(data[..n], data[n..] + [0]);
    assert data == data[..n] + data[n..] && data + [0] == data[..n] + (data[n..] + [0]);
    assert (data[n..] + [0])[2..] == [];
  }

  /** The checksum is all ones for all-zero data and for nothing else. */
  lemma {:induction false} OnlyZerosSumToZero(data: Data)
    ensures InternetChecksum(data) == 0xffff <==> forall i | 0 <= i < |data| :: data[i] == 0
  {
    if |data| >= 2 {
      OnlyZerosSumToZero(data[2..]);
      assert forall i | 2 <= i < |data| :: data[i] == data[2..][i - 2];
    }
  }

  lemma MultipleOfComplement(sum: nat)
    ensures OnesComplement(sum) == 0xffff <==> sum > 0 && sum % 0xffff == 0
  {
    if sum > 0 {
      assert sum % 0xffff == 0 <==> (sum - 1) % 0xffff == 0xfffe;
    }
  }

  /** A field at an even offset makes the whole checksum zero exactly when it holds the checksum
      computed with the field zeroed; an all-ones field is the second form of zero. */
  lemma FieldVerifies(a: Data, v: U16, b: Data)
    requires |a| % 2 == 0
    ensures var c := InternetChecksum(a + [0, 0] + b);
            InternetChecksum(a + Be16(v) + b) == 0 <==> v == c || (c == 0 && v == 0xffff)
  {
    var w := WordSum(a) + WordSum(b);
    forall x: U16 ensures WordSum(a + Be16(x) + b) == w + x {
      WordSumAppend(a + Be16(x), b);
      WordSumAppend(a, Be16(x));
      assert Be16(x)[2..] == [];
    }
    assert Be16(0) == [0, 0];
    MultipleOfComplement(w + v);
    var c := 0xffff - OnesComplement(w);
    if w > 0 {
      ComplementCancels(w, v);
    }
  }

  lemma ComplementCancels(w: nat, v: U16)
    requires w > 0
    ensures var c := 0xffff - (1 + (w - 1) % 0xffff);
            (w + v) % 0xffff == 0 <==> v == c || (c == 0 && v == 0xffff)
  {
    var q, m := (w - 1) / 0xffff, (w - 1) % 0xffff;
    assert w + v == 0xffff * q + (m + 1 + v);
    var t := m + 1 + v;
    assert (w + v) % 0xffff == t % 0xffff by {
      MultiplesVanish(t, q);
    }
    assert 1 <= t <= 0x1fffe;
  }

  lemma MultiplesVanish(t: nat, q: nat)
    ensures (0xffff * q + t) % 0xffff == t % 0xffff
  {
  }
}
