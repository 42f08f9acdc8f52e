/** core/string_hashing.h: the djb2 hash of a NUL-terminated C string.

    A C string is modelled as the sequence of characters stored from the
    pointer onwards; the end of the sequence stands for the terminating NUL,
    and a NUL inside the sequence ends the string early. The Win32 build is
    assumed: `unsigned long` is 32 bits wide and `char` is signed. */
module StringHashing {

  /** Every hash value lies below this bound (`unsigned long` is 32 bits). */
  const HashModulus: nat := 0x1_0000_0000

  /** The djb2 seed. */
  const Seed: nat := 5381

  const NUL: char := 0 as char

  /** The value `int c = *str` takes: the low byte of the character,
      sign-extended because `char` is signed. */
  function SignedChar(c: char): (v: int)
    ensures -128 <= v < 128
    ensures (v - c as int) % 256 == 0
  {
    var b := c as int % 256;
    if b < 128 then b else b - 256
  }

  /** The characters of a C string: everything before the first NUL. */
  function CString(s: seq<char>): (r: seq<char>)
    ensures |r| <= |s| && r == s[..|r|]
    ensures NUL !in r
    ensures |r| < |s| ==> s[|r|] == NUL
  {
    if s == [] || s[0] == NUL then [] else [s[0]] + CString(s[1..])
  }

  /** djb2 over characters none of which is NUL, in unbounded form
      folded left to right, each step reduced to 32 bits. */
  function Djb2(s: seq<char>): (h: nat)
    ensures h < HashModulus
  {
    if s == [] then Seed
    else (Djb2(s[..|s| - 1]) * 33 + SignedChar(s[|s| - 1])) % HashModulus
  }

  /** The hash `getHash` computes for the C string stored in `s`. */
  function Hash(s: seq<char>): nat {
    Djb2(CString(s))
  }

  /** `StringHashing::getHash`: the while loop that multiplies by 33
      (as `(hash << 5) + hash`) and adds each character until the NUL. */
  method GetHash(str: seq<char>) returns (hash: nat)
    ensures hash == Hash(str)
    ensures hash < HashModulus
  {
    hash := Seed;
    var i := 0;
    while i < |str| && str[i] != NUL
      invariant 0 <= i <= |str|
      invariant NUL !in str[..i]
      invariant hash == Djb2(str[..i])
    {
      var c := SignedChar(str[i]);
      assert str[..i + 1][..i] == str[..i];
      hash := ((hash * 32) + hash + c) % HashModulus;
      i := i + 1;
    }
    CStringOfPrefix(str, i);
  }

  /** If the first `i` characters hold no NUL and the string ends there
      (sequence end or NUL), those `i` characters are the C string. */
  lemma {:induction false} CStringOfPrefix(s: seq<char>, i: nat)
    requires i <= |s| && NUL !in s[..i]
    requires i == |s| || s[i] == NUL
    ensures CString(s) == s[..i]
  {
    if i == 0 {
    } else {
      assert s[0] == s[..i][0];
      assert NUL !in s[1..][..i - 1] by { assert s[1..][..i - 1] == s[..i][1..]; }
      CStringOfPrefix(s[1..], i - 1);
      assert s[..i] == [s[0]] + s[1..][..i - 1];
    }
  }

  /** The empty string hashes to the seed 5381. */
  lemma EmptyHashIsSeed()
    ensures Hash([]) == 5381
    ensures Hash([NUL]) == 5381
  {
  }

  /** Appending a non-NUL character c to a C string s gives hash * 33 + c,
      wrapped to 32 bits. */
  lemma {:induction false} HashAppend(s: seq<char>, c: char)
    requires NUL !in s && c != NUL
    ensures Hash(s + [c]) == (Hash(s) * 33 + SignedChar(c)) % HashModulus
  {
    CStringOfPrefix(s, |s|);
    CStringOfPrefix(s + [c], |s| + 1);
    assert (s + [c])[..|s| + 1] == s + [c];
    assert (s + [c])[..|s|] == s;
    assert s[..|s|] == s;
  }

  /** Hashing stops at the first NUL: whatever follows it has no effect. */
  lemma {:induction false} HashStopsAtNul(s: seq<char>, rest: seq<char>)
    requires NUL !in s
    ensures Hash(s + [NUL] + rest) == Hash(s)
  {
    var t := s + [NUL] + rest;
    assert t[..|s|] == s;
    CStringOfPrefix(t, |s|);
    CStringOfPrefix(s, |s|);
    assert s[..|s|] == s;
  }

  /** Characters whose low bytes agree enter the hash identically, so two
      strings that agree byte for byte before the NUL hash alike. */
  lemma {:induction false} HashDependsOnLowBytes(s: seq<char>, t: seq<char>)
    requires |s| == |t|
    requires forall i :: 0 <= i < |s| ==> SignedChar(s[i]) == SignedChar(t[i])
    ensures Djb2(s) == Djb2(t)
  {
    if s != [] {
      HashDependsOnLowBytes(s[..|s| - 1], t[..|t| - 1]);
    }
  }

  /** A character with a code of 128 or more (in its low byte) enters the
      hash as a negative number, as a signed `char` does. */
  lemma HighCharIsNegative()
    ensures SignedChar(0xE9 as char) == -23
    ensures Hash(['é']) == (Seed * 33 - 23) % HashModulus
  {
    assert CString(['é']) == ['é'];
    assert ['é'][..0] == [];
  }
}
