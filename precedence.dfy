/** Version precedence as section 11 of SemVer 2.0.0 defines it: major,
    minor and patch compared numerically; a version without pre-release
    above one with; pre-release identifiers compared left to right, numeric
    ones numerically and below alphanumeric ones, alphanumeric ones in
    ASCII order, a shorter list below a longer one it begins. Build
    metadata plays no part. */
module SemVerOrder {
  import opened Orders
  import opened Text
  import opened Decimal
  import opened SemVer

  function CmpNat(a: int, b: int): Ordering
  {
    if a < b then Less else if a == b then Equal else Greater
  }

  /** Lexical comparison in ASCII order. */
  function CmpText(s: string, t: string): Ordering
  {
    if s == [] then (if t == [] then Equal else Less)
    else if t == [] then Greater
    else if s[0] < t[0] then Less
    else if s[0] > t[0] then Greater
    else CmpText(s[1..], t[1..])
  }

  function CmpIdent(x: string, y: string): Ordering
  {
    if AllDigits(x) && AllDigits(y) then CmpNat(ValueOf(x), ValueOf(y))
    else if AllDigits(x) then Less
    else if AllDigits(y) then Greater
    else CmpText(x, y)
  }

  function CmpIdents(xs: seq<string>, ys: seq<string>): Ordering
  {
    if xs == [] then (if ys == [] then Equal else Less)
    else if ys == [] then Greater
    else if CmpIdent(xs[0], ys[0]) != Equal then CmpIdent(xs[0], ys[0])
    else CmpIdents(xs[1..], ys[1..])
  }

  function CmpPre(p: string, q: string): Ordering
  {
    if p == [] && q == [] then Equal
    else if p == [] then Greater
    else if q == [] then Less
    else CmpIdents(Split(p, '.'), Split(q, '.'))
  }

  function Precedence(a: Version, b: Version): Ordering
  {
    if CmpNat(a.major, b.major) != Equal then CmpNat(a.major, b.major)
    else if CmpNat(a.minor, b.minor) != Equal then CmpNat(a.minor, b.minor)
    else if CmpNat(a.patch, b.patch) != Equal then CmpNat(a.patch, b.patch)
    else CmpPre(a.pre, b.pre)
  }

  /** `a` has lower or equal precedence than `b`. */
  predicate PrecedenceLe(a: Version, b: Version)
  {
    Precedence(a, b) != Greater
  }

  // Each comparison flips when its arguments are swapped, and its "not
  // greater" relation is transitive.

  lemma {:induction false} TextFlips(s: string, t: string)
    ensures CmpText(t, s) == Flip(CmpText(s, t))
    decreases |s|
  {
    if s != [] && t != [] && s[0] == t[0] {
      TextFlips(s[1..], t[1..]);
    }
  }

  lemma {:induction false} TextTrans(s: string, t: string, u: string)
    requires CmpText(s, t) != Greater && CmpText(t, u) != Greater
    ensures CmpText(s, u) != Greater
    decreases |s|
  {
    if s != [] && t != [] && u != [] && s[0] == t[0] && t[0] == u[0] {
      TextTrans(s[1..], t[1..], u[1..]);
    }
  }

  lemma IdentFlips(x: string, y: string)
    ensures CmpIdent(y, x) == Flip(CmpIdent(x, y))
  {
    TextFlips(x, y);
  }

  lemma IdentTrans(x: string, y: string, z: string)
    requires CmpIdent(x, y) != Greater && CmpIdent(y, z) != Greater
    ensures CmpIdent(x, z) != Greater
  {
    if !AllDigits(x) && !AllDigits(y) && !AllDigits(z) {
      TextTrans(x, y, z);
    }
  }

  /** Ties and strict steps of identifiers compose as in any total preorder. */
  lemma IdentCompose(x: string, y: string, z: string)
    requires CmpIdent(x, y) != Greater && CmpIdent(y, z) != Greater
    ensures CmpIdent(x, y) == Equal && CmpIdent(y, z) == Equal ==> CmpIdent(x, z) == Equal
    ensures CmpIdent(x, y) == Less || CmpIdent(y, z) == Less ==> CmpIdent(x, z) == Less
  {
    IdentFlips(x, y);
    IdentFlips(y, z);
    IdentFlips(x, z);
    IdentTrans(x, y, z);
    if CmpIdent(x, y) == Equal && CmpIdent(y, z) == Equal {
      IdentTrans(z, y, x);
    }
    if CmpIdent(x, z) == Equal {
      if CmpIdent(x, y) == Less {
        IdentTrans(y, z, x);
      } else if CmpIdent(y, z) == Less {
        IdentTrans(z, x, y);
      }
    }
  }

  lemma {:induction false} IdentsFlip(xs: seq<string>, ys: seq<string>)
    ensures CmpIdents(ys, xs) == Flip(CmpIdents(xs, ys))
    decreases |xs|
  {
    if xs != [] && ys != [] {
      IdentFlips(xs[0], ys[0]);
      IdentsFlip(xs[1..], ys[1..]);
    }
  }

  lemma {:induction false} IdentsTrans(xs: seq<string>, ys: seq<string>, zs: seq<string>)
    requires CmpIdents(xs, ys) != Greater && CmpIdents(ys, zs) != Greater
    ensures CmpIdents(xs, zs) != Greater
    decreases |xs|
  {
    if xs != [] && ys != [] && zs != [] {
      IdentCompose(xs[0], ys[0], zs[0]);
      if CmpIdent(xs[0], ys[0]) == Equal && CmpIdent(ys[0], zs[0]) == Equal {
        IdentsTrans(xs[1..], ys[1..], zs[1..]);
      }
    }
  }

  lemma PrecedenceFlips(a: Version, b: Version)
    ensures Precedence(b, a) == Flip(Precedence(a, b))
  {
    if a.pre != [] && b.pre != [] {
      IdentsFlip(Split(a.pre, '.'), Split(b.pre, '.'));
    }
  }

  lemma PrecedenceTrans(a: Version, b: Version, c: Version)
    requires PrecedenceLe(a, b) && PrecedenceLe(b, c)
    ensures PrecedenceLe(a, c)
  {
    if a.major == b.major == c.major && a.minor == b.minor == c.minor && a.patch == b.patch == c.patch
       && a.pre != [] && b.pre != [] && c.pre != [] {
      IdentsTrans(Split(a.pre, '.'), Split(b.pre, '.'), Split(c.pre, '.'));
    }
  }

  /** Precedence is a total preorder, so it can drive the version sort. */
  lemma PrecedenceIsTotalPreorder()
    ensures TotalPreorder(PrecedenceLe)
  {
    forall x: Version
      ensures PrecedenceLe(x, x)
    {
      PrecedenceFlips(x, x);
    }
    forall x: Version, y: Version
      ensures PrecedenceLe(x, y) || PrecedenceLe(y, x)
    {
      PrecedenceFlips(x, y);
    }
    forall x: Version, y: Version, z: Version | PrecedenceLe(x, y) && PrecedenceLe(y, z)
      ensures PrecedenceLe(x, z)
    {
      PrecedenceTrans(x, y, z);
    }
  }

  /** Build metadata does not affect precedence. */
  lemma BuildIgnored(a: Version, b: Version, build: BuildMetadata)
    ensures Precedence(a.(build := build), b) == Precedence(a, b)
  {
  }
}
