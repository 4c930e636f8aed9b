/**
 The order in which the store walks its object files: tier by tier, type directory by type
 directory, and inside a directory by sorted file name.
 */
module Listing {

  datatype Tier = Canonical | Candidate | Deprecated

  datatype ObjectType = Claim | Procedure | Case | Decision

  /** An object file, tier/type directory/name.json, with the roots resolved. */
  datatype Path = Path(tier: Tier, objectType: ObjectType, name: string)

  function TierRank(t: Tier): nat {
    match t case Canonical => 0 case Candidate => 1 case Deprecated => 2
  }

  function TypeRank(t: ObjectType): nat {
    match t case Claim => 0 case Procedure => 1 case Case => 2 case Decision => 3
  }

  /** Python's order on strings. */
  predicate StringLess(a: string, b: string) {
    b != [] && (a == [] || a[0] < b[0] || (a[0] == b[0] && StringLess(a[1..], b[1..])))
  }

  /** They differ first at k: there a ends, or has the smaller character. */
  predicate FirstDiffer(a: string, b: string, k: nat) {
    k <= |a| && k < |b| && a[..k] == b[..k] && (k < |a| ==> a[k] < b[k])
  }

  lemma BeginAlike(a: string, b: string, k: nat)
    requires FirstDiffer(a, b, k)
    ensures k > 0 ==> a != [] && b != [] && a[0] == b[0]
  {
    if k > 0 { assert a[..k][0] == b[..k][0]; }
  }

  lemma {:induction false} StringLessExactly(a: string, b: string)
    ensures StringLess(a, b) <==> exists k: nat :: FirstDiffer(a, b, k)
  {
    if a == [] || b == [] || a[0] != b[0] {
      assert b != [] && (a == [] || a[0] < b[0]) ==> FirstDiffer(a, b, 0);
      forall k: nat | FirstDiffer(a, b, k) ensures k == 0 {
        BeginAlike(a, b, k);
      }
    } else {
      StringLessExactly(a[1..], b[1..]);
      forall k: nat | FirstDiffer(a[1..], b[1..], k) ensures FirstDiffer(a, b, k + 1) {
        assert a[..k + 1] == [a[0]] + a[1..][..k] && b[..k + 1] == [b[0]] + b[1..][..k];
      }
      forall k: nat | FirstDiffer(a, b, k) ensures k > 0 && FirstDiffer(a[1..], b[1..], k - 1) {
        assert a[1..][..k - 1] == a[..k][1..] && b[1..][..k - 1] == b[..k][1..];
      }
    }
  }

  function FileName(p: Path): string {
    p.name + ".json"
  }

  /** p is walked before q. */
  predicate Before(p: Path, q: Path) {
    || TierRank(p.tier) < TierRank(q.tier)
    || (p.tier == q.tier
        && (|| TypeRank(p.objectType) < TypeRank(q.objectType)
            || (p.objectType == q.objectType && StringLess(FileName(p), FileName(q)))))
  }

  lemma {:induction false} StringLessIrreflexive(a: string)
    ensures !StringLess(a, a)
  {
    if a != [] {
      StringLessIrreflexive(a[1..]);
    }
  }

  lemma {:induction false} StringLessTransitive(a: string, b: string, c: string)
    requires StringLess(a, b) && StringLess(b, c)
    ensures StringLess(a, c)
  {
    if a != [] && a[0] == b[0] && b[0] == c[0] {
      StringLessTransitive(a[1..], b[1..], c[1..]);
    }
  }

  lemma {:induction false} StringLessTotal(a: string, b: string)
    ensures a == b || StringLess(a, b) || StringLess(b, a)
  {
    if a != [] && b != [] && a[0] == b[0] {
      StringLessTotal(a[1..], b[1..]);
      assert a == [a[0]] + a[1..] && b == [b[0]] + b[1..];
    }
  }

  lemma BeforeIrreflexive(p: Path)
    ensures !Before(p, p)
  {
    StringLessIrreflexive(FileName(p));
  }

  lemma BeforeTransitive(p: Path, q: Path, r: Path)
    requires Before(p, q) && Before(q, r)
    ensures Before(p, r)
  {
    if p.tier == q.tier == r.tier && p.objectType == q.objectType == r.objectType {
      StringLessTransitive(FileName(p), FileName(q), FileName(r));
    }
  }

  lemma BeforeAsymmetric(p: Path, q: Path)
    requires Before(p, q)
    ensures p != q && !Before(q, p)
  {
    BeforeIrreflexive(p);
    if Before(q, p) {
      BeforeTransitive(p, q, p);
    }
  }

  lemma BeforeTotal(p: Path, q: Path)
    ensures p == q || Before(p, q) || Before(q, p)
  {
    StringLessTotal(FileName(p), FileName(q));
    if FileName(p) == FileName(q) {
      assert p.name == FileName(p)[..|FileName(p)| - 5] == FileName(q)[..|FileName(q)| - 5] == q.name;
    }
  }

  predicate IsFirst(p: Path, s: set<Path>) {
    p in s && forall q :: q in s ==> q == p || Before(p, q)
  }

  lemma {:induction false} FirstExists(s: set<Path>)
    requires s != {}
    ensures exists p :: IsFirst(p, s)
  {
    var x :| x in s;
    if s == {x} {
      assert IsFirst(x, s);
    } else {
      FirstExists(s - {x});
      var y :| IsFirst(y, s - {x});
      BeforeTotal(x, y);
      var p := if Before(x, y) then x else y;
      forall q | q in s ensures q == p || Before(p, q) {
        if p == x && q != x && q != y {
          BeforeTransitive(x, y, q);
        }
      }
      assert IsFirst(p, s);
    }
  }

  lemma FirstUnique(s: set<Path>)
    ensures forall p, q :: IsFirst(p, s) && IsFirst(q, s) ==> p == q
  {
    forall p, q | IsFirst(p, s) && IsFirst(q, s) ensures p == q {
      if p != q {
        BeforeAsymmetric(p, q);
      }
    }
  }

  function First(s: set<Path>): (p: Path)
    requires s != {}
    ensures IsFirst(p, s)
  {
    FirstExists(s);
    FirstUnique(s);
    var p :| p in s && IsFirst(p, s);
    p
  }

  /** Every path of s once, in walking order. */
  ghost predicate Lists(files: seq<Path>, s: set<Path>) {
    && (forall p :: p in files <==> p in s)
    && (forall i, j :: 0 <= i < j < |files| ==> Before(files[i], files[j]))
  }

  /** The walk of the object directories: sorted(glob("*.json")) under each tier and type. */
  function Walk(s: set<Path>): (files: seq<Path>)
    ensures Lists(files, s)
  {
    if s == {} then [] else [First(s)] + Walk(s - {First(s)})
  }

  lemma WalkDistinct(files: seq<Path>, s: set<Path>, i: nat, j: nat)
    requires Lists(files, s) && i < |files| && j < |files| && files[i] == files[j]
    ensures i == j
  {
    if i < j { BeforeAsymmetric(files[i], files[j]); }
    if j < i { BeforeAsymmetric(files[j], files[i]); }
  }

  lemma {:induction false} WalkLength(files: seq<Path>, s: set<Path>)
    requires Lists(files, s)
    ensures |files| == |s|
  {
    if files == [] {
      assert s == {};
    } else {
      var n := |files| - 1;
      assert files[n] in s;
      forall p ensures p in files[..n] <==> p in s - {files[n]} {
        if p in files[..n] {
          var i :| 0 <= i < n && files[i] == p;
          BeforeAsymmetric(p, files[n]);
        }
        assert files == files[..n] + [files[n]];
      }
      WalkLength(files[..n], s - {files[n]});
    }
  }
}
