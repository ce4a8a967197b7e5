/** Object paths and their JSON-pointer spelling (sections 3 and 4 of RFC 6901). */
module Paths {
  import opened Basics

  type Path = seq<string>

  /** Leftmost non-overlapping replacement, as Go's strings.ReplaceAll. */
  function ReplaceAll(s: string, find: string, put: string): string
    requires find != []
  {
    if |s| < |find| then s
    else if s[..|find|] == find then put + ReplaceAll(s[|find|..], find, put)
    else [s[0]] + ReplaceAll(s[1..], find, put)
  }

  function Escape(segment: string): string {
    ReplaceAll(ReplaceAll(segment, "~", "~0"), "/", "~1")
  }

  function Unescape(segment: string): string {
    ReplaceAll(ReplaceAll(segment, "~1", "/"), "~0", "~")
  }

  function Pointer(path: Path): string {
    if path == [] then "" else "/" + Escape(path[0]) + Pointer(path[1..])
  }

  function Split(s: string, separator: char): (parts: seq<string>)
    ensures parts != []
  {
    if s == "" then [""]
    else
      var rest := Split(s[1..], separator);
      if s[0] == separator then [""] + rest else [[s[0]] + rest[0]] + rest[1..]
  }

  function UnescapeAll(parts: seq<string>): Path {
    if parts == [] then [] else [Unescape(parts[0])] + UnescapeAll(parts[1..])
  }

  /** The filter's reading of a location key; None is a key that is no pointer. */
  function Parse(pointer: string): Option<Path> {
    if pointer == "" then Some([])
    else if pointer[0] != '/' then None
    else Some(UnescapeAll(Split(pointer[1..], '/')))
  }

  predicate Extends(q: Path, p: Path) {
    p <= q
  }

  predicate StrictlyExtends(q: Path, p: Path) {
    p < q
  }

  predicate Comparable(p: Path, q: Path) {
    p <= q || q <= p
  }

  // ---- Escaping --------------------------------------------------------

  /** One character's escape; the two passes of Escape act character by character. */
  function EscapeChar(c: char): string {
    if c == '~' then "~0" else if c == '/' then "~1" else [c]
  }

  function Escaped(s: string): string {
    if s == "" then "" else EscapeChar(s[0]) + Escaped(s[1..])
  }

  function Tildes(s: string): string {
    if s == "" then "" else (if s[0] == '~' then "~0" else [s[0]]) + Tildes(s[1..])
  }

  lemma {:induction false} TildesIsReplace(s: string)
    ensures ReplaceAll(s, "~", "~0") == Tildes(s)
  {
    if s != "" {
      TildesIsReplace(s[1..]);
      assert s[..1] == [s[0]];
    }
  }

  lemma {:induction false} EscapeIsCharwise(s: string)
    ensures Escape(s) == Escaped(s)
  {
    TildesIsReplace(s);
    SlashesAfterTildes(s);
  }

  lemma {:induction false} SlashesAfterTildes(s: string)
    ensures ReplaceAll(Tildes(s), "/", "~1") == Escaped(s)
  {
    if s != "" {
      SlashesAfterTildes(s[1..]);
      var t := Tildes(s);
      assert t[..1] == [t[0]];
      if s[0] == '~' {
        assert t[1..] == "0" + Tildes(s[1..]);
        assert t[1..][..1] == "0" && t[1..][1..] == Tildes(s[1..]);
        assert ReplaceAll(t[1..], "/", "~1") == "0" + Escaped(s[1..]);
        assert ReplaceAll(t, "/", "~1") == "~" + ("0" + Escaped(s[1..]));
      } else {
        assert t[1..] == Tildes(s[1..]);
      }
    }
  }

  lemma {:induction false} EscapedHasNoSlash(s: string)
    ensures '/' !in Escaped(s)
  {
    if s != "" { EscapedHasNoSlash(s[1..]); }
  }

  lemma {:induction false} UnescapeFirstPass(s: string)
    ensures ReplaceAll(Escaped(s), "~1", "/") == Tildes(s)
  {
    if s != "" {
      UnescapeFirstPass(s[1..]);
      var e, rest := Escaped(s), Escaped(s[1..]);
      if s[0] == '~' {
        assert e[..2] == "~0";
        assert e[1..] == "0" + rest && e[1..][1..] == rest;
        assert |rest| > 0 ==> e[1..][..2][0] == '0';
        assert ReplaceAll(e[1..], "~1", "/") == "0" + Tildes(s[1..]);
        assert ReplaceAll(e, "~1", "/") == "~" + ("0" + Tildes(s[1..]));
      } else if s[0] == '/' {
        assert e[..2] == "~1" && e[2..] == rest;
      } else {
        assert e[1..] == rest;
        assert |e| >= 2 ==> e[..2][0] == s[0];
        assert |e| < 2 ==> s[1..] == "" by { if s[1..] != "" { assert |Escaped(s[1..])| > 0; } }
      }
    }
  }

  lemma {:induction false} UnescapeSecondPass(s: string)
    ensures ReplaceAll(Tildes(s), "~0", "~") == s
  {
    if s != "" {
      UnescapeSecondPass(s[1..]);
      var t, rest := Tildes(s), Tildes(s[1..]);
      if s[0] == '~' {
        assert t[..2] == "~0" && t[2..] == rest;
        assert ReplaceAll(t, "~0", "~") == "~" + s[1..];
      } else {
        assert t[1..] == rest;
        assert |t| >= 2 ==> t[..2][0] == s[0];
        assert |t| < 2 ==> s[1..] == "" by { if s[1..] != "" { assert |Tildes(s[1..])| > 0; } }
      }
    }
  }

  lemma UnescapeInvertsEscape(s: string)
    ensures Unescape(Escape(s)) == s
  {
    EscapeIsCharwise(s);
    UnescapeFirstPass(s);
    UnescapeSecondPass(s);
  }

  lemma EscapeHasNoSlash(s: string)
    ensures '/' !in Escape(s)
  {
    EscapeIsCharwise(s);
    EscapedHasNoSlash(s);
  }

  lemma EscapeInjective(s: string, t: string)
    requires Escape(s) == Escape(t)
    ensures s == t
  {
    UnescapeInvertsEscape(s);
    UnescapeInvertsEscape(t);
  }

  // ---- Pointers --------------------------------------------------------

  lemma {:induction false} SplitSegment(segment: string, rest: string)
    requires '/' !in segment
    ensures rest == "" ==> Split(segment + rest, '/') == [segment]
    ensures rest != "" && rest[0] == '/' ==> Split(segment + rest, '/') == [segment] + Split(rest[1..], '/')
  {
    var s := segment + rest;
    if segment != "" {
      assert s[0] == segment[0] && s[1..] == segment[1..] + rest;
      SplitSegment(segment[1..], rest);
      assert segment == [segment[0]] + segment[1..];
    } else {
      assert s == rest;
    }
  }

  lemma UnescapeAllCons(part: string, parts: seq<string>)
    ensures UnescapeAll([part] + parts) == [Unescape(part)] + UnescapeAll(parts)
  {
    assert ([part] + parts)[1..] == parts;
  }

  lemma UnescapeSegments(segment: string, rest: string)
    requires '/' !in segment && (rest == "" || rest[0] == '/')
    ensures UnescapeAll(Split(segment + rest, '/')) ==
            [Unescape(segment)] + (if rest == "" then [] else UnescapeAll(Split(rest[1..], '/')))
  {
    SplitSegment(segment, rest);
    if rest == "" {
      UnescapeAllCons(segment, []);
      assert [segment] + [] == [segment];
    } else {
      UnescapeAllCons(segment, Split(rest[1..], '/'));
    }
  }

  /** Reading a pointer back as the filter does gives the path it was made from. */
  lemma {:induction false} ParseInvertsPointer(path: Path)
    ensures Parse(Pointer(path)) == Some(path)
  {
    if path != [] {
      ParseInvertsPointer(path[1..]);
      EscapeHasNoSlash(path[0]);
      UnescapeInvertsEscape(path[0]);
      PointerSegments(path);
      UnescapeSegments(Escape(path[0]), Pointer(path[1..]));
      assert path == [path[0]] + path[1..];
    }
  }

  lemma PointerSegments(path: Path)
    requires path != []
    ensures Pointer(path) != "" && Pointer(path)[0] == '/'
    ensures Pointer(path)[1..] == Escape(path[0]) + Pointer(path[1..])
    ensures Pointer(path[1..]) == "" <==> path[1..] == []
    ensures path[1..] != [] ==> Pointer(path[1..])[0] == '/'
  {
    DropSlash(Escape(path[0]), Pointer(path[1..]));
    if path[1..] != [] {
      DropSlash(Escape(path[1]), Pointer(path[1..][1..]));
    }
  }

  lemma DropSlash(s: string, t: string)
    ensures var whole := "/" + s + t; whole != "" && whole[0] == '/' && whole[1..] == s + t
  {
  }

  lemma PointerInjective(p: Path, q: Path)
    requires Pointer(p) == Pointer(q)
    ensures p == q
  {
    ParseInvertsPointer(p);
    ParseInvertsPointer(q);
  }

  /** A pointer is a string prefix with a trailing slash exactly below its path. */
  lemma {:induction false} PrefixIsDescent(p: Path, q: Path)
    ensures Pointer(p) + "/" <= Pointer(q) <==> StrictlyExtends(q, p)
  {
    if p == [] || q == [] {
      PrefixAtEnd(p, q);
    } else {
      PrefixIsDescent(p[1..], q[1..]);
      PrefixStep(p, q);
      DescentStep(p, q);
    }
  }

  lemma PrefixAtEnd(p: Path, q: Path)
    requires p == [] || q == []
    ensures Pointer(p) + "/" <= Pointer(q) <==> StrictlyExtends(q, p)
  {
    if q != [] { PointerSegments(q); }
  }

  lemma DescentStep(p: Path, q: Path)
    requires p != [] && q != []
    ensures StrictlyExtends(q, p) <==> p[0] == q[0] && StrictlyExtends(q[1..], p[1..])
  {
    assert p == [p[0]] + p[1..] && q == [q[0]] + q[1..];
  }

  lemma PrefixStep(p: Path, q: Path)
    requires p != [] && q != []
    ensures Pointer(p) + "/" <= Pointer(q) <==>
            p[0] == q[0] && Pointer(p[1..]) + "/" <= Pointer(q[1..])
  {
    EscapeHasNoSlash(p[0]);
    EscapeHasNoSlash(q[0]);
    PointerSegments(p);
    PointerSegments(q);
    if Escape(p[0]) == Escape(q[0]) { EscapeInjective(p[0], q[0]); }
    PrefixBySegment(Escape(p[0]), Pointer(p[1..]), Escape(q[0]), Pointer(q[1..]));
  }

  lemma PrefixBySegment(l: string, tail: string, r: string, rest: string)
    requires '/' !in l && '/' !in r
    requires tail == "" || tail[0] == '/'
    requires rest == "" || rest[0] == '/'
    ensures "/" + l + tail + "/" <= "/" + r + rest <==> l == r && tail + "/" <= rest
  {
    var end := tail + "/";
    assert "/" + l + tail + "/" == "/" + (l + end);
    assert "/" + r + rest == "/" + (r + rest);
    PrefixOfTails("/", l + end, r + rest);
    if l + end <= r + rest { SegmentsMatch(l, end, r, rest); }
    if l == r { PrefixOfTails(l, end, rest); }
  }

  lemma PrefixOfTails(head: string, a: string, b: string)
    ensures head + a <= head + b <==> a <= b
  {
    assert (head + a)[|head|..] == a && (head + b)[|head|..] == b;
    if head + a <= head + b {
      assert a == (head + b)[..|head + a|][|head|..];
    }
  }

  lemma {:induction false} SegmentsMatch(l: string, tail: string, r: string, rest: string)
    requires '/' !in l && '/' !in r
    requires tail != "" && tail[0] == '/'
    requires rest == "" || rest[0] == '/'
    requires l + tail <= r + rest
    ensures l == r && tail <= rest
  {
    var left, right := l + tail, r + rest;
    assert left[0] == right[0];
    assert l != "" <==> r != "";
    if l != "" {
      assert left[1..] == l[1..] + tail && right[1..] == r[1..] + rest;
      assert left[1..] <= right[1..];
      SegmentsMatch(l[1..], tail, r[1..], rest);
      assert l == [l[0]] + l[1..] && r == [r[0]] + r[1..];
    } else {
      assert left == tail && right == rest;
    }
  }

  lemma {:induction false} PointerOfChild(path: Path, key: string)
    ensures Pointer(path + [key]) == Pointer(path) + "/" + Escape(key)
  {
    if path == [] {
      assert ([] + [key])[1..] == [];
    } else {
      PointerOfChild(path[1..], key);
      assert (path + [key])[1..] == path[1..] + [key];
    }
  }

  /** Path.String: one pass appending to a builder. */
  method Render(path: Path) returns (b: string)
    ensures b == Pointer(path)
  {
    b := "";
    for i := 0 to |path|
      invariant b == Pointer(path[..i])
    {
      PointerOfChild(path[..i], path[i]);
      assert path[..i] + [path[i]] == path[..i + 1];
      b := b + "/" + Escape(path[i]);
    }
    assert path[..|path|] == path;
  }

  // ---- Decimal list indexes -------------------------------------------

  function Digit(n: nat): char
    requires n < 10
  {
    "0123456789"[n]
  }

  /** Go's strconv.Itoa on a list index. */
  function Itoa(n: nat): (s: string)
    ensures s != ""
  {
    if n < 10 then [Digit(n)] else Itoa(n / 10) + [Digit(n % 10)]
  }

  lemma DigitInjective(m: nat, n: nat)
    requires m < 10 && n < 10 && Digit(m) == Digit(n)
    ensures m == n
  {
  }

  lemma {:induction false} ItoaInjective(m: nat, n: nat)
    requires Itoa(m) == Itoa(n)
    ensures m == n
    decreases m
  {
    var s := Itoa(m);
    assert m >= 10 ==> |s| == |Itoa(m / 10)| + 1 > 1;
    assert n >= 10 ==> |s| == |Itoa(n / 10)| + 1 > 1;
    assert m < 10 <==> n < 10;
    if m >= 10 {
      assert s[..|s| - 1] == Itoa(m / 10) && s[..|s| - 1] == Itoa(n / 10);
      assert s[|s| - 1] == Digit(m % 10) == Digit(n % 10);
      ItoaInjective(m / 10, n / 10);
      DigitInjective(m % 10, n % 10);
    } else {
      assert s[0] == Digit(m) == Digit(n);
      DigitInjective(m, n);
    }
  }

  /** The position a path segment names in a list of the given length. */
  function IndexOf(segment: string, length: nat): (i: Option<nat>)
    ensures i.Some? ==> i.value < length && Itoa(i.value) == segment
  {
    if length == 0 then None
    else if Itoa(length - 1) == segment then Some(length - 1)
    else IndexOf(segment, length - 1)
  }

  lemma {:induction false} IndexOfItoa(i: nat, length: nat)
    requires i < length
    ensures IndexOf(Itoa(i), length) == Some(i)
  {
    if Itoa(length - 1) == Itoa(i) {
      ItoaInjective(length - 1, i);
    } else {
      IndexOfItoa(i, length - 1);
    }
  }

  /** The number a string of decimal digits stands for. */
  function Decimal(s: string): int {
    if s == "" then 0 else 10 * Decimal(s[..|s| - 1]) + (s[|s| - 1] as int - '0' as int)
  }

  /** A list index is written in decimal digits, without a leading zero. */
  lemma {:induction false} ItoaIsDecimal(n: nat)
    ensures Decimal(Itoa(n)) == n
    ensures forall c | c in Itoa(n) :: '0' <= c <= '9'
    ensures n > 0 ==> Itoa(n)[0] != '0'
  {
    DigitIsDecimal(n % 10);
    var s := Itoa(n);
    if n >= 10 {
      ItoaIsDecimal(n / 10);
      assert s[..|s| - 1] == Itoa(n / 10) && s[0] == Itoa(n / 10)[0];
    } else {
      assert s[..0] == "" && s == [Digit(n)];
    }
  }

  lemma DigitIsDecimal(n: nat)
    requires n < 10
    ensures Digit(n) as int == '0' as int + n && '0' <= Digit(n) <= '9'
  {
  }

  lemma {:induction false} EscapedConcat(s: string, t: string)
    ensures Escaped(s + t) == Escaped(s) + Escaped(t)
  {
    if s == "" {
      assert s + t == t;
    } else {
      assert (s + t)[0] == s[0] && (s + t)[1..] == s[1..] + t;
      EscapedConcat(s[1..], t);
    }
  }

  /** Section 3 of RFC 6901: only the tilde and the slash are escaped, as ~0 and ~1, each by itself. */
  lemma EscapesByCharacter(s: string, t: string, c: char)
    ensures Escape(s + t) == Escape(s) + Escape(t)
    ensures Escape("") == ""
    ensures Escape([c]) == if c == '~' then "~0" else if c == '/' then "~1" else [c]
  {
    EscapeIsCharwise(s + t);
    EscapeIsCharwise(s);
    EscapeIsCharwise(t);
    EscapeIsCharwise([c]);
    EscapedConcat(s, t);
    assert [c][1..] == "";
  }

  /** A pointer is a slash and an escaped segment for each segment, in order. */
  lemma PointerMeans(path: Path, key: string)
    ensures Pointer([]) == "" && Pointer(path + [key]) == Pointer(path) + "/" + Escape(key)
  {
    PointerOfChild(path, key);
  }

  /** A key is no pointer exactly when it is not empty and does not begin with a slash. */
  lemma ParseFailsIff(pointer: string)
    ensures Parse(pointer).None? <==> pointer != "" && pointer[0] != '/'
  {
  }
}
