/** Product names read from raw device descriptors are padded with NUL
    characters; `ReadString` removes them after decoding. */
module DeviceNames {

  const Nul: char := '\0'

  /** `ReadString` applied to the already-decoded text: every NUL character is
      dropped, every other character is kept, in order. */
  function ReadString(decoded: string): (r: string)
    ensures Nul !in r
    ensures |r| == |decoded| - multiset(decoded)[Nul]
    ensures forall c :: c != Nul ==> multiset(r)[c] == multiset(decoded)[c]
  {
    if decoded == [] then []
    else
      assert decoded == [decoded[0]] + decoded[1..];
      (if decoded[0] == Nul then [] else [decoded[0]]) + ReadString(decoded[1..])
  }

  /** Text without NUL characters is returned unchanged. */
  lemma {:induction false} ReadStringKeepsCleanText(s: string)
    requires Nul !in s
    ensures ReadString(s) == s
  {
    if s != [] {
      ReadStringKeepsCleanText(s[1..]);
    }
  }

  /** Removing NULs commutes with concatenation: the characters that stay
      keep their relative order. */
  lemma {:induction false} ReadStringConcat(a: string, b: string)
    ensures ReadString(a + b) == ReadString(a) + ReadString(b)
  {
    if a != [] {
      assert (a + b)[1..] == a[1..] + b;
      ReadStringConcat(a[1..], b);
    } else {
      assert a + b == b;
    }
  }

  /** Applying `ReadString` twice is the same as applying it once. */
  lemma ReadStringIdempotent(s: string)
    ensures ReadString(ReadString(s)) == ReadString(s)
  {
    ReadStringKeepsCleanText(ReadString(s));
  }

  /** A descriptor name padded with NULs compares equal to the plain name
      (for instance "Mouse\0\0\0" reads as "Mouse"). */
  lemma PaddedNameMatches(name: string, n: nat)
    requires Nul !in name
    ensures ReadString(name + seq(n, _ => Nul)) == name
  {
    var padding := seq(n, _ => Nul);
    var r := ReadString(padding);
    assert r == [] by {
      forall c ensures multiset(r)[c] == 0 {
        if c != Nul {
          assert c !in padding;
        }
      }
      assert multiset(r) == multiset{};
    }
    ReadStringKeepsCleanText(name);
    ReadStringConcat(name, padding);
  }
}
