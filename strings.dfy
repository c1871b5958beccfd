/** The few Python string and path primitives the modelled code relies on:
    `str.split`, `str.join`, `str(n)` for a natural number, and
    `os.path.basename`, `os.path.dirname`, `os.path.join` and the root part of
    `os.path.splitext` for POSIX paths. */
module PyStrings {
  import opened Errors

  // ---------------------------------------------------------------------------
  // str.split and str.join
  // ---------------------------------------------------------------------------

  /** `d` occurs in `s` starting at index `k`. */
  predicate OccursAt(s: string, d: string, k: nat)
  {
    k + |d| <= |s| && s[k..k + |d|] == d
  }

  /** `d` occurs nowhere in `s`. */
  predicate DelimiterFree(s: string, d: string)
  {
    forall k: nat :: k <= |s| ==> !OccursAt(s, d, k)
  }

  /** `a` can stand before a delimiter `d` without an occurrence of `d`
      starting inside `a` (for "__": `a` has no "__" and does not end in '_'). */
  predicate LeadingField(a: string, d: string)
  {
    forall k: nat :: k < |a| ==> !OccursAt(a + d, d, k)
  }

  /** `d.join(fields)`. */
  function Join(fields: seq<string>, d: string): string
  {
    if |fields| == 0 then ""
    else if |fields| == 1 then fields[0]
    else fields[0] + d + Join(fields[1..], d)
  }

  /** `s.split(d)`: scanning from the left, every occurrence of `d` ends a
      field and the scan resumes after it. Joining the fields back with `d`
      gives `s` again. */
  function Split(s: string, d: string): (r: seq<string>)
    requires |d| > 0
    ensures |r| >= 1
    ensures Join(r, d) == s
    decreases |s|
  {
    if |s| < |d| then [s]
    else if s[..|d|] == d then
      var t := Split(s[|d|..], d);
      assert s == d + s[|d|..];
      [""] + t
    else
      var t := Split(s[1..], d);
      assert s == [s[0]] + s[1..];
      [[s[0]] + t[0]] + t[1..]
  }

  /** Occurrences in `s[1..]` are the occurrences in `s` shifted by one. */
  lemma OccursAtTail(s: string, d: string, k: nat)
    requires |s| > 0
    ensures OccursAt(s[1..], d, k) <==> OccursAt(s, d, k + 1)
  {
    if k + |d| <= |s[1..]| {
      assert s[1..][k..k + |d|] == s[k + 1..k + 1 + |d|];
    }
  }

  /** A string without the delimiter splits into itself alone. */
  lemma {:induction false} SplitDelimiterFree(s: string, d: string)
    requires |d| > 0
    requires DelimiterFree(s, d)
    ensures Split(s, d) == [s]
    decreases |s|
  {
    if |s| >= |d| {
      assert !OccursAt(s, d, 0);
      forall k: nat | k <= |s[1..]| ensures !OccursAt(s[1..], d, k) {
        OccursAtTail(s, d, k);
      }
      SplitDelimiterFree(s[1..], d);
      assert [s[0]] + s[1..] == s;
    }
  }

  /** The first field of `a + d + b` is `a` when no occurrence of `d` starts
      inside `a`; the rest is the split of `b`. */
  lemma {:induction false} SplitAfterField(a: string, d: string, b: string)
    requires |d| > 0
    requires LeadingField(a, d)
    ensures Split(a + d + b, d) == [a] + Split(b, d)
    decreases |a|
  {
    var s := a + d + b;
    if |a| == 0 {
      assert s[..|d|] == d;
      assert s[|d|..] == b;
    } else {
      assert s[..|d|] == (a + d)[..|d|];
      assert !OccursAt(a + d, d, 0);
      assert s[..|d|] != d;
      var a' := a[1..];
      assert s[1..] == a' + d + b;
      forall k: nat | k < |a'| ensures !OccursAt(a' + d, d, k) {
        assert !OccursAt(a + d, d, k + 1);
        OccursAtTail(a + d, d, k);
        assert (a + d)[1..] == a' + d;
      }
      SplitAfterField(a', d, b);
      assert [s[0]] + a' == a;
    }
  }

  /** Joining fields that cannot be confused with the delimiter and splitting
      again gives the fields back. */
  lemma {:induction false} SplitJoin(fields: seq<string>, d: string)
    requires |d| > 0 && |fields| >= 1
    requires forall i :: 0 <= i < |fields| - 1 ==> LeadingField(fields[i], d)
    requires DelimiterFree(fields[|fields| - 1], d)
    ensures Split(Join(fields, d), d) == fields
    decreases |fields|
  {
    if |fields| == 1 {
      SplitDelimiterFree(fields[0], d);
    } else {
      SplitJoin(fields[1..], d);
      SplitAfterField(fields[0], d, Join(fields[1..], d));
    }
  }

  /** A string without '_' is a safe field for the delimiter "__". */
  lemma UnderscoreFreeField(s: string)
    requires forall i :: 0 <= i < |s| ==> s[i] != '_'
    ensures LeadingField(s, "__") && DelimiterFree(s, "__")
  {
    forall k: nat | k < |s| ensures !OccursAt(s + "__", "__", k) {
      assert (s + "__")[k] == s[k];
    }
    forall k: nat | k <= |s| ensures !OccursAt(s, "__", k) {
      if k + 2 <= |s| {
        assert s[k..k + 2][0] == s[k];
      }
    }
  }

  // ---------------------------------------------------------------------------
  // str(n) for a natural number
  // ---------------------------------------------------------------------------

  predicate IsDigit(c: char) { '0' <= c <= '9' }

  function DigitChar(n: nat): (c: char)
    requires n < 10
    ensures IsDigit(c)
  {
    ('0' as int + n) as char
  }

  function DigitValue(c: char): (n: nat)
    requires IsDigit(c)
    ensures n < 10
  {
    c as int - '0' as int
  }

  /** The decimal numeral of `n`, as Python's `str(n)`. */
  function NatToString(n: nat): (s: string)
    ensures |s| >= 1
    ensures forall i :: 0 <= i < |s| ==> IsDigit(s[i])
    decreases n
  {
    if n < 10 then [DigitChar(n)] else NatToString(n / 10) + [DigitChar(n % 10)]
  }

  /** The value of a decimal numeral (the inverse of NatToString). */
  function ParseNat(s: string): nat
    requires forall i :: 0 <= i < |s| ==> IsDigit(s[i])
  {
    if s == [] then 0
    else ParseNat(s[..|s| - 1]) * 10 + DigitValue(s[|s| - 1])
  }

  lemma {:induction false} ParseNatToString(n: nat)
    ensures ParseNat(NatToString(n)) == n
    decreases n
  {
    var s := NatToString(n);
    if n >= 10 {
      assert s[..|s| - 1] == NatToString(n / 10);
      ParseNatToString(n / 10);
    }
  }

  /** Distinct numbers have distinct numerals. */
  lemma NatToStringInjective(m: nat, n: nat)
    requires NatToString(m) == NatToString(n)
    ensures m == n
  {
    ParseNatToString(m);
    ParseNatToString(n);
  }

  // ---------------------------------------------------------------------------
  // POSIX paths
  // ---------------------------------------------------------------------------

  /** The index of the last `c` in `s`. */
  function LastIndexOf(s: string, c: char): (r: Option<nat>)
    ensures r.Some? ==> r.value < |s| && s[r.value] == c
                        && forall j :: r.value < j < |s| ==> s[j] != c
    ensures r.None? ==> forall j :: 0 <= j < |s| ==> s[j] != c
  {
    if s == [] then None
    else if s[|s| - 1] == c then Some(|s| - 1)
    else LastIndexOf(s[..|s| - 1], c)
  }

  /** `os.path.basename(p)`: what follows the last '/'. */
  function Basename(p: string): (b: string)
    ensures forall j :: 0 <= j < |b| ==> b[j] != '/'
    ensures |b| <= |p| && b == p[|p| - |b|..]
  {
    match LastIndexOf(p, '/')
    case None => p
    case Some(i) => p[i + 1..]
  }

  predicate AllSlashes(s: string)
  {
    forall j :: 0 <= j < |s| ==> s[j] == '/'
  }

  /** `s.rstrip('/')`. */
  function StripTrailingSlashes(s: string): (r: string)
    ensures |r| <= |s| && r == s[..|r|]
    ensures r == [] || r[|r| - 1] != '/'
  {
    if s != [] && s[|s| - 1] == '/' then StripTrailingSlashes(s[..|s| - 1]) else s
  }

  /** `os.path.dirname(p)`: everything up to the last '/', without trailing
      slashes unless it consists of slashes only. */
  function Dirname(p: string): string
  {
    match LastIndexOf(p, '/')
    case None => ""
    case Some(i) =>
      var head := p[..i + 1];
      if AllSlashes(head) then head else StripTrailingSlashes(head)
  }

  /** `os.path.join(a, b)` for two components. */
  function PathJoin(a: string, b: string): string
  {
    if |b| > 0 && b[0] == '/' then b
    else if a == "" || a[|a| - 1] == '/' then a + b
    else a + "/" + b
  }

  /** `os.path.join` of several components, from left to right. */
  function PathJoinAll(a: string, parts: seq<string>): string
    decreases |parts|
  {
    if parts == [] then a else PathJoinAll(PathJoin(a, parts[0]), parts[1..])
  }

  predicate NoDoubleSlash(p: string)
  {
    forall j :: 0 <= j < |p| - 1 ==> !(p[j] == '/' && p[j + 1] == '/')
  }

  /** Splitting a path into directory and base name and joining them again is
      the identity on paths without "//". */
  lemma JoinDirnameBasename(p: string)
    requires NoDoubleSlash(p)
    ensures PathJoin(Dirname(p), Basename(p)) == p
  {
    match LastIndexOf(p, '/')
    case None =>
    case Some(i) =>
      var head := p[..i + 1];
      var base := p[i + 1..];
      assert p == head + base;
      assert base == [] || base[0] != '/' by {
        if base != [] {
          assert base[0] == p[i + 1];
        }
      }
      if AllSlashes(head) {
        assert PathJoin(head, base) == head + base;
      } else {
        var dir := p[..i];
        assert i >= 1 && p[i - 1] != '/';
        assert head == dir + "/";
        StripBeforeSlash(dir);
        assert dir[|dir| - 1] == p[i - 1];
        assert PathJoin(dir, base) == dir + "/" + base;
      }
  }

  /** Stripping the trailing slash of `a + "/"`, when `a` does not end in
      one, gives `a`. */
  lemma StripBeforeSlash(a: string)
    requires a != [] && a[|a| - 1] != '/'
    ensures StripTrailingSlashes(a + "/") == a
  {
    assert (a + "/")[..|a|] == a;
  }

  /** The base name of `dir/leaf` is `leaf` when `leaf` has no '/'. */
  lemma BasenameOfJoin(dir: string, leaf: string)
    requires forall j :: 0 <= j < |leaf| ==> leaf[j] != '/'
    requires |leaf| > 0
    ensures Basename(PathJoin(dir, leaf)) == leaf
  {
    var q := if dir == "" || dir[|dir| - 1] == '/' then dir else dir + "/";
    assert PathJoin(dir, leaf) == q + leaf;
    BasenameAfterSlash(q, leaf);
  }

  /** What follows a final '/' (or nothing) is the base name. */
  lemma BasenameAfterSlash(q: string, leaf: string)
    requires forall j :: 0 <= j < |leaf| ==> leaf[j] != '/'
    requires q == "" || q[|q| - 1] == '/'
    ensures Basename(q + leaf) == leaf
  {
    var p := q + leaf;
    forall j | |q| <= j < |p| ensures p[j] != '/' {
      assert p[j] == leaf[j - |q|];
    }
    if q != "" {
      assert p[|q| - 1] == '/';
    }
    match LastIndexOf(p, '/')
    case None =>
      assert p == leaf;
    case Some(k) =>
      assert k < |q|;
      assert k == |q| - 1;
      assert p[k + 1..] == leaf;
  }

  /** `os.path.splitext(b)[0]` for a base name `b` (no '/'): the part before
      the last '.', unless only dots precede that '.'. */
  function SplitextRoot(b: string): string
  {
    match LastIndexOf(b, '.')
    case None => b
    case Some(i) =>
      if exists j :: 0 <= j < i && b[j] != '.' then b[..i] else b
  }

  /** The root of `stem + "." + ext` is `stem` when `ext` has no '.' and
      `stem` is not made of dots only. */
  lemma SplitextRootOfName(stem: string, ext: string)
    requires forall j :: 0 <= j < |ext| ==> ext[j] != '.'
    requires exists j :: 0 <= j < |stem| && stem[j] != '.'
    ensures SplitextRoot(stem + "." + ext) == stem
  {
    var b := stem + "." + ext;
    assert b[|stem|] == '.';
    var i := LastIndexOf(b, '.');
    assert i == Some(|stem|);
    var j :| 0 <= j < |stem| && stem[j] != '.';
    assert b[j] != '.';
    assert b[..|stem|] == stem;
  }
}
