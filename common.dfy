/**
 * Shared vocabulary: optional values, the dynamically typed values that
 * flags and YAML effects carry, Python truthiness, and the handful of
 * Python string and list operations the games rely on (`strip`, `upper`,
 * `", ".join`, negative slices, `str(n)`).
 */
module Common {

  datatype Option<T> = None | Some(value: T)
  {
    function UnwrapOr(default: T): (r: T)
      ensures this.Some? ==> r == value
      ensures this.None? ==> r == default
    {
      match this
      case None => default
      case Some(v) => v
    }
  }

  /** A value stored in a flag dictionary or written by a YAML effect. */
  datatype Value = VNone | VBool(b: bool) | VInt(i: int) | VStr(s: string)

  /** Python's `bool(v)`. */
  predicate Truthy(v: Value)
  {
    match v
    case VNone => false
    case VBool(b) => b
    case VInt(i) => i != 0
    case VStr(s) => s != ""
  }

  /** Python truthiness of an optional string: neither `None` nor `""`. */
  predicate Present(s: Option<string>)
  {
    s.Some? && s.value != ""
  }

  /**
   * The characters Python's `str.isspace` accepts, which `str.strip()`
   * removes: tab to carriage return, the four separators 0x1C to 0x1F,
   * space, NEL, no-break space, and the Unicode spaces and separators.
   */
  predicate IsSpace(c: char)
  {
    ('\t' <= c <= '\r') || ('\U{1C}' <= c <= ' ') || c == '\U{85}' || c == '\U{A0}' ||
    c == '\U{1680}' || ('\U{2000}' <= c <= '\U{200A}') || c == '\U{2028}' || c == '\U{2029}' ||
    c == '\U{202F}' || c == '\U{205F}' || c == '\U{3000}'
  }

  function StripLeft(s: string): (r: string)
    ensures |r| <= |s| && r == s[|s| - |r|..]
    ensures r == [] || !IsSpace(r[0])
  {
    if s != [] && IsSpace(s[0]) then StripLeft(s[1..]) else s
  }

  function StripRight(s: string): (r: string)
    ensures |r| <= |s| && r == s[..|r|]
    ensures r == [] || !IsSpace(r[|r| - 1])
  {
    if s != [] && IsSpace(s[|s| - 1]) then StripRight(s[..|s| - 1]) else s
  }

  /** Python's `s.strip()`: `s` without leading and trailing whitespace. */
  function Strip(s: string): (r: string)
    ensures |r| <= |s|
    ensures r == [] || (!IsSpace(r[0]) && !IsSpace(r[|r| - 1]))
    ensures (forall i :: 0 <= i < |s| ==> IsSpace(s[i])) <==> r == []
  {
    var l := StripLeft(s);
    var r := StripRight(l);
    assert r == [] ==> forall i :: 0 <= i < |s| ==> IsSpace(s[i]) by {
      if r == [] {
        StripRightEmpty(l);
        assert l == [];
        StripLeftEmpty(s);
      }
    }
    assert r != [] ==> r[0] == l[0];
    StripNonEmpty(s, l, r);
    r
  }

  lemma StripRightEmpty(s: string)
    requires StripRight(s) == []
    ensures forall i :: 0 <= i < |s| ==> IsSpace(s[i])
  {
    if s != [] {
      StripRightEmpty(s[..|s| - 1]);
      assert forall i :: 0 <= i < |s| - 1 ==> s[i] == s[..|s| - 1][i];
    }
  }

  lemma {:induction false} StripLeftEmpty(s: string)
    requires StripLeft(s) == []
    ensures forall i :: 0 <= i < |s| ==> IsSpace(s[i])
  {
    if s != [] {
      assert IsSpace(s[0]);
      var t := s[1..];
      StripLeftEmpty(t);
      forall i | 1 <= i < |s| ensures IsSpace(s[i]) {
        assert s[i] == t[i - 1];
      }
    }
  }

  lemma StripNonEmpty(s: string, l: string, r: string)
    requires l == StripLeft(s) && r == StripRight(l)
    ensures (exists i :: 0 <= i < |s| && !IsSpace(s[i])) ==> r != []
  {
    if exists i :: 0 <= i < |s| && !IsSpace(s[i]) {
      var i :| 0 <= i < |s| && !IsSpace(s[i]);
      StripLeftKeeps(s, i);
      assert l != [] && !IsSpace(l[0]);
      assert StripRight(l) != [] by { StripRightKeeps(l); }
    }
  }

  lemma StripLeftKeeps(s: string, i: int)
    requires 0 <= i < |s| && !IsSpace(s[i])
    ensures StripLeft(s) != []
  {
    if IsSpace(s[0]) {
      StripLeftKeeps(s[1..], i - 1);
    }
  }

  lemma StripRightKeeps(l: string)
    requires l != [] && !IsSpace(l[0])
    ensures StripRight(l) != []
  {
    if IsSpace(l[|l| - 1]) {
      assert |l| > 1;
      StripRightKeeps(l[..|l| - 1]);
    }
  }

  /** Python's `str.upper()` on ASCII letters. */
  function UpperChar(c: char): (r: char)
    ensures 'a' <= c <= 'z' ==> 'A' <= r <= 'Z'
    ensures !('a' <= c <= 'z') ==> r == c
  {
    if 'a' <= c <= 'z' then (c as int - 32) as char else c
  }

  function Upper(s: string): (r: string)
    ensures |r| == |s|
    ensures forall i :: 0 <= i < |s| ==> r[i] == UpperChar(s[i])
  {
    if s == [] then [] else [UpperChar(s[0])] + Upper(s[1..])
  }

  /** `sep.join(parts)`. */
  function Join(parts: seq<string>, sep: string): (r: string)
    ensures parts == [] ==> r == []
    ensures |parts| == 1 ==> r == parts[0]
  {
    if parts == [] then []
    else if |parts| == 1 then parts[0]
    else parts[0] + sep + Join(parts[1..], sep)
  }

  /** A join starts with its first part. */
  lemma JoinStartsWith(parts: seq<string>, sep: string)
    requires parts != []
    ensures |Join(parts, sep)| >= |parts[0]| && Join(parts, sep)[..|parts[0]|] == parts[0]
  {
    if |parts| > 1 {
      assert Join(parts, sep) == parts[0] + (sep + Join(parts[1..], sep));
    }
  }

  function DigitChar(d: nat): char
    requires d < 10
  {
    "0123456789"[d]
  }

  /** Python's `str(n)` for an integer. */
  function Show(n: int): (r: string)
    ensures r != []
  {
    if n < 0 then "-" + ShowNat(-n) else ShowNat(n)
  }

  function ShowNat(n: nat): (r: string)
    ensures r != []
    ensures forall i :: 0 <= i < |r| ==> '0' <= r[i] <= '9'
  {
    if n < 10 then [DigitChar(n)] else ShowNat(n / 10) + [DigitChar(n % 10)]
  }

  /**
   * Python's `s[-n:]`: the last `n` elements for a positive `n`, the whole
   * list for `n == 0` (because `-0 == 0`), and the list without its first
   * `-n` elements for a negative `n`.
   */
  function PyTail<T>(s: seq<T>, n: int): (r: seq<T>)
    ensures |r| <= |s| && r == s[|s| - |r|..]
    ensures n > 0 ==> |r| == if n <= |s| then n else |s|
    ensures n == 0 ==> r == s
    ensures n < 0 ==> |r| == if -n <= |s| then |s| + n else 0
  {
    if n > 0 then (if n <= |s| then s[|s| - n..] else s)
    else if n == 0 then s
    else if -n <= |s| then s[-n..] else []
  }

  /** Python's `s[:n]`. */
  function PyHead<T>(s: seq<T>, n: int): (r: seq<T>)
    ensures |r| <= |s| && r == s[..|r|]
    ensures n >= 0 ==> |r| == if n <= |s| then n else |s|
    ensures n < 0 ==> |r| == if -n <= |s| then |s| + n else 0
  {
    if n >= 0 then (if n <= |s| then s[..n] else s)
    else if -n <= |s| then s[..|s| + n] else []
  }

  /** Appends `x` unless it is already present: the key order of a Python dict. */
  function AppendNew<T(==)>(s: seq<T>, x: T): seq<T>
  {
    if x in s then s else s + [x]
  }

  /**
   * Adding a key keeps the old keys first and in order, makes `x` a key,
   * adds nothing else, and never lists a key twice.
   */
  lemma AppendNewSpec<T>(s: seq<T>, x: T)
    ensures x in AppendNew(s, x)
    ensures forall y :: y in AppendNew(s, x) <==> y in s || y == x
    ensures Distinct(s) ==> Distinct(AppendNew(s, x))
    ensures |s| <= |AppendNew(s, x)| && AppendNew(s, x)[..|s|] == s
  {
    if x !in s {
      assert (s + [x])[..|s|] == s;
    }
  }

  /** No element occurs twice, stated one appended element at a time. */
  predicate Distinct<T(==)>(s: seq<T>)
  {
    s == [] || (Distinct(s[..|s| - 1]) && s[|s| - 1] !in s[..|s| - 1])
  }

  /** `Distinct` is the usual pairwise statement. */
  lemma {:induction false} DistinctIff<T>(s: seq<T>)
    ensures Distinct(s) <==> forall i, j :: 0 <= i < j < |s| ==> s[i] != s[j]
  {
    if s != [] {
      var init := s[..|s| - 1];
      DistinctIff(init);
      if Distinct(s) {
        forall i, j | 0 <= i < j < |s| ensures s[i] != s[j] {
          if j < |s| - 1 {
            assert s[i] == init[i] && s[j] == init[j];
          } else {
            assert s[i] in init;
          }
        }
      }
      if forall i, j :: 0 <= i < j < |s| ==> s[i] != s[j] {
        forall i, j | 0 <= i < j < |init| ensures init[i] != init[j] {
          assert init[i] == s[i] && init[j] == s[j];
        }
      }
    }
  }

  /** Lexicographic order on strings by code point, as Python compares `str`. */
  predicate StrLe(a: string, b: string)
  {
    if a == [] then true
    else if b == [] then false
    else if a[0] != b[0] then a[0] < b[0]
    else StrLe(a[1..], b[1..])
  }

  lemma {:induction false} StrLeTotal(a: string, b: string)
    ensures StrLe(a, b) || StrLe(b, a)
  {
    if a != [] && b != [] && a[0] == b[0] {
      StrLeTotal(a[1..], b[1..]);
    }
  }

  lemma {:induction false} StrLeAntisym(a: string, b: string)
    ensures StrLe(a, b) && StrLe(b, a) ==> a == b
  {
    if a != [] && b != [] && a[0] == b[0] {
      StrLeAntisym(a[1..], b[1..]);
      if StrLe(a, b) && StrLe(b, a) {
        assert a == [a[0]] + a[1..];
        assert b == [b[0]] + b[1..];
      }
    }
  }

  lemma {:induction false} StrLeTrans(a: string, b: string, c: string)
    ensures StrLe(a, b) && StrLe(b, c) ==> StrLe(a, c)
  {
    if a != [] && b != [] && c != [] && a[0] == b[0] && b[0] == c[0] {
      StrLeTrans(a[1..], b[1..], c[1..]);
    }
  }

  lemma StrLeRefl(a: string)
    ensures StrLe(a, a)
  {
    if a != [] {
      StrLeRefl(a[1..]);
    }
  }

  /** Concatenation regroups; stated once so that callers need not rediscover it. */
  lemma ConcatAssoc<T>(a: seq<T>, b: seq<T>, c: seq<T>)
    ensures a + (b + c) == (a + b) + c
  {
  }

  /** The keys of a list of entries, in order (a dictionary's keys when they are distinct). */
  function Keys<K, V>(raw: seq<(K, V)>): (ks: seq<K>)
    ensures |ks| == |raw| && forall i :: 0 <= i < |raw| ==> ks[i] == raw[i].0
  {
    if raw == [] then [] else Keys(raw[..|raw| - 1]) + [raw[|raw| - 1].0]
  }

  /** Python's `str.lower()` on ASCII letters. */
  function LowerChar(c: char): (r: char)
    ensures 'A' <= c <= 'Z' ==> 'a' <= r <= 'z'
    ensures !('A' <= c <= 'Z') ==> r == c
  {
    if 'A' <= c <= 'Z' then (c as int + 32) as char else c
  }

  function Lower(s: string): (r: string)
    ensures |r| == |s|
    ensures forall i :: 0 <= i < |s| ==> r[i] == LowerChar(s[i])
  {
    if s == [] then [] else [LowerChar(s[0])] + Lower(s[1..])
  }

  /** Python's `s.replace(' ', '_')`. */
  function Underscored(s: string): (r: string)
    ensures |r| == |s|
    ensures forall i :: 0 <= i < |s| ==> r[i] == if s[i] == ' ' then '_' else s[i]
    ensures forall i :: 0 <= i < |r| ==> r[i] != ' '
  {
    if s == [] then [] else [if s[0] == ' ' then '_' else s[0]] + Underscored(s[1..])
  }

  /** A non-empty set of strings has a least element. */
  lemma {:induction false} LeastExists(s: set<string>)
    requires s != {}
    ensures exists m :: m in s && LowerBound(m, s)
    decreases |s|
  {
    var y :| y in s;
    var rest := s - {y};
    if rest == {} {
      StrLeRefl(y);
      assert s == {y};
      assert LowerBound(y, s);
    } else {
      LeastExists(rest);
      var m :| m in rest && LowerBound(m, rest);
      StrLeTotal(y, m);
      if StrLe(y, m) {
        StrLeRefl(y);
        forall x | x in s ensures StrLe(y, x) {
          if x != y {
            assert StrLe(m, x);
            StrLeTrans(y, m, x);
          }
        }
        assert LowerBound(y, s);
      } else {
        assert LowerBound(m, s);
      }
    }
  }

  /** `m` is at most every element of `s`. */
  predicate LowerBound(m: string, s: set<string>)
  {
    forall x :: x in s ==> StrLe(m, x)
  }

  /** The least string of a non-empty set. */
  ghost function Least(s: set<string>): (m: string)
    requires s != {}
    ensures m in s && LowerBound(m, s)
  {
    LeastExists(s);
    var m :| m in s && LowerBound(m, s);
    m
  }

  /** Strictly ascending: sorted and without repeats. */
  predicate Ascending(r: seq<string>)
  {
    forall i, j :: 0 <= i < j < |r| ==> StrLe(r[i], r[j]) && r[i] != r[j]
  }

  /** Python's `sorted(s)` for a set of strings. */
  ghost function Sorted(s: set<string>): seq<string>
    decreases |s|
  {
    if s == {} then [] else var m := Least(s); [m] + Sorted(s - {m})
  }

  /** `sorted(s)` lists exactly the elements of `s`, once each, in ascending order. */
  lemma {:induction false} SortedSpec(s: set<string>)
    ensures |Sorted(s)| == |s|
    ensures forall x :: x in Sorted(s) <==> x in s
    ensures Ascending(Sorted(s))
    decreases |s|
  {
    if s != {} {
      var m := Least(s);
      SortedSpec(s - {m});
      var r := Sorted(s);
      assert r == [m] + Sorted(s - {m});
      forall i, j | 0 <= i < j < |r| ensures StrLe(r[i], r[j]) && r[i] != r[j] {
        if i == 0 {
          assert r[j] == Sorted(s - {m})[j - 1];
          assert r[j] in s - {m};
        } else {
          assert r[i] == Sorted(s - {m})[i - 1] && r[j] == Sorted(s - {m})[j - 1];
        }
      }
    }
  }

  /** `sorted(s)`, taking the least remaining element each step. */
  method SortStrings(s: set<string>) returns (r: seq<string>)
    ensures r == Sorted(s)
  {
    r := [];
    var rest := s;
    while rest != {}
      invariant r + Sorted(rest) == Sorted(s)
      decreases |rest|
    {
      LeastExists(rest);
      var m :| m in rest && LowerBound(m, rest);
      StrLeAntisym(m, Least(rest));
      assert Sorted(rest) == [m] + Sorted(rest - {m});
      ConcatAssoc(r, [m], Sorted(rest - {m}));
      r := r + [m];
      rest := rest - {m};
    }
  }
}
