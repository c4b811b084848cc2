/**
 Node names as bounded C strings: what the registry reads of them, and when it takes two for the same.
 */
module NodeNames {
  import opened Wrappers

  const NAME_MAX: nat := 32

  /** Memory from a name's first character on: it ends the name within it, or is long enough to be cut. */
  type Chars = s: string | '\0' in s || |s| >= NAME_MAX witness ['\0']

  /** A name as stored in a record. */
  type NameBuffer = s: string | |s| == NAME_MAX witness Padded("")

  function Padded(key: string): (s: string)
    ensures |s| == NAME_MAX
    ensures forall i :: 0 <= i < NAME_MAX ==> s[i] == if i < |key| then key[i] else '\0'
  {
    seq(NAME_MAX, i requires 0 <= i => if i < |key| then key[i] else '\0')
  }

  /** The characters before the first NUL. */
  function Prefix(s: string): (p: string)
    ensures p <= s && '\0' !in p
    ensures |p| < |s| ==> s[|p|] == '\0'
  {
    if s == [] || s[0] == '\0' then [] else [s[0]] + Prefix(s[1..])
  }

  lemma {:induction false} PrefixUnique(s: string, n: nat)
    requires n <= |s| && '\0' !in s[..n] && (n < |s| ==> s[n] == '\0')
    ensures Prefix(s) == s[..n]
    decreases |s|
  {
    if n > 0 {
      assert s[0] == s[..n][0] && s[1..][..n - 1] == s[..n][1..];
      PrefixUnique(s[1..], n - 1);
    }
  }

  /** The name that a registry operation sees: at most 32 characters, up to the first NUL. */
  function Key(s: string): (k: string)
  {
    var p := Prefix(s);
    if |p| <= NAME_MAX then p else p[..NAME_MAX]
  }

  predicate ValidKey(k: string) {
    0 < |k| < NAME_MAX && '\0' !in k
  }

  lemma KeyOfPadded(k: string)
    requires ValidKey(k)
    ensures Key(Padded(k)) == k
  {
    assert Padded(k)[..|k|] == k;
    PrefixUnique(Padded(k), |k|);
  }

  method NameLen(name: Chars) returns (len: nat)
    ensures len == |Key(name)| == if |Prefix(name)| < 32 then |Prefix(name)| else 32
  {
    len := 0;
    while len < NAME_MAX && name[len] != '\0'
      invariant len <= NAME_MAX && len <= |name| && len <= |Prefix(name)|
    {
      len := len + 1;
    }
  }

  method NameValid(name: Option<Chars>) returns (valid: bool)
    ensures valid <==> name.Some? && ValidKey(Key(name.value))
    ensures valid <==> name.Some? && 1 <= |Prefix(name.value)| <= 31
  {
    if name.None? || name.value[0] == '\0' {
      return false;
    }
    var len := NameLen(name.value);
    valid := len < NAME_MAX;
  }

  lemma KeysEnd(a: Chars, b: Chars, i: nat)
    requires i < NAME_MAX && i <= |Prefix(a)| && i <= |Prefix(b)| && a[..i] == b[..i]
    ensures i < |a| && i < |b|
    ensures a[i] != b[i] ==> Key(a) != Key(b)
    ensures a[i] == b[i] == '\0' ==> Key(a) == Key(b)
    ensures a[i] == b[i] != '\0' ==> i < |Prefix(a)| && i < |Prefix(b)|
  {
    hide Prefix;
    if a[i] == b[i] == '\0' {
      assert |Prefix(a)| == i && Prefix(a) == a[..i];
      assert |Prefix(b)| == i && Prefix(b) == b[..i];
    } else if a[i] != b[i] {
      assert i < |Prefix(a)| ==> Prefix(a)[i] == a[i];
      assert i < |Prefix(b)| ==> Prefix(b)[i] == b[i];
      assert Key(a) == Key(b) ==> |Key(a)| == |Key(b)|;
    }
  }

  lemma KeysFull(a: Chars, b: Chars)
    requires NAME_MAX <= |Prefix(a)| && NAME_MAX <= |Prefix(b)| && a[..NAME_MAX] == b[..NAME_MAX]
    ensures Key(a) == Key(b)
  {
    hide Prefix;
    assert Key(a) == a[..NAME_MAX] && Key(b) == b[..NAME_MAX];
  }

  /** Names are the same when they end alike, or do not end within their first 32 characters. */
  lemma SameKey(a: Chars, b: Chars)
    ensures Key(a) == Key(b)
            <==> Prefix(a) == Prefix(b) || (|Prefix(a)| >= 32 && |Prefix(b)| >= 32 && a[..32] == b[..32])
  {
    hide Prefix;
    assert |Prefix(a)| >= 32 ==> Key(a) == a[..32];
    assert |Prefix(b)| >= 32 ==> Key(b) == b[..32];
  }

  /** `strncmp` over 32 characters, as far as equality goes. */
  method SameName(a: Chars, b: Chars) returns (same: bool)
    ensures same <==> Key(a) == Key(b)
    ensures same <==> Prefix(a) == Prefix(b) || (|Prefix(a)| >= 32 && |Prefix(b)| >= 32 && a[..32] == b[..32])
  {
    SameKey(a, b);
    hide Prefix, Key;
    var i := 0;
    while i < NAME_MAX
      invariant i <= NAME_MAX && i <= |Prefix(a)| && i <= |Prefix(b)|
      invariant a[..i] == b[..i]
    {
      KeysEnd(a, b, i);
      if a[i] != b[i] {
        return false;
      }
      if a[i] == '\0' {
        return true;
      }
      i := i + 1;
    }
    KeysFull(a, b);
    same := true;
  }
}
