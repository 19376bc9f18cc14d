/**
 Topic patterns (api/topics.ts, isValidVariant): `*` stands for one segment,
 the first `>` for everything from there on.
 */
module Topics {
  import opened Text

  /** Where the first `>` is, or the length when there is none. */
  function RestAt(pattern: seq<string>): (g: nat)
    ensures g <= |pattern| && forall i :: 0 <= i < g ==> pattern[i] != ">"
    ensures g < |pattern| ==> pattern[g] == ">"
  {
    if pattern == [] || pattern[0] == ">" then 0 else 1 + RestAt(pattern[1..])
  }

  /** One pattern segment stands for one subject segment. */
  predicate StandsFor(p: string, s: string) {
    p == "*" || p == s
  }

  /** The subject splits, segment by segment, into the pattern; the first `>` takes one or more. */
  predicate Matches(pattern: seq<string>, subject: seq<string>) {
    var g := RestAt(pattern);
    && (if g < |pattern| then g < |subject| else |subject| == |pattern|)
    && forall i :: 0 <= i < g ==> StandsFor(pattern[i], subject[i])
  }

  method IsValidVariant(pattern: string, subject: string) returns (valid: bool)
    ensures valid == Matches(Split(pattern, '.'), Split(subject, '.'))
  {
    var patternParts, subjectParts := Split(pattern, '.'), Split(subject, '.');
    var pi, si := 0, 0;
    while pi < |patternParts| && si < |subjectParts|
      invariant 0 <= pi == si <= |patternParts| && si <= |subjectParts|
      invariant pi <= RestAt(patternParts)
      invariant forall i :: 0 <= i < pi ==> StandsFor(patternParts[i], subjectParts[i])
    {
      var pp := patternParts[pi];
      if pp == ">" {
        return true;
      }
      if pp != "*" && pp != subjectParts[si] {
        return false;
      }
      pi := pi + 1;
      si := si + 1;
    }
    valid := pi == |patternParts| && si == |subjectParts|;
  }

  /** A pattern accepted by another, with no `>` of its own, narrows it. */
  lemma VariantsCompose(p: seq<string>, q: seq<string>, s: seq<string>)
    requires Matches(p, q) && Matches(q, s) && RestAt(q) == |q|
    ensures Matches(p, s)
  {
    forall i | 0 <= i < RestAt(p) ensures StandsFor(p[i], s[i]) {
      assert StandsFor(p[i], q[i]) && StandsFor(q[i], s[i]);
    }
  }

  /** A subject `q` accepts that is `extra` segments longer than what comes before its `>`. */
  function Sample(q: seq<string>, extra: nat): seq<string> {
    q[..RestAt(q)] + seq(extra, i => "x")
  }

  /**
   In general a pattern accepted by another accepts only subjects the other
   accepts exactly when it has no `>`, or the other has one at the same place
   or before.
   */
  lemma VariantsNarrowExactly(p: seq<string>, q: seq<string>)
    requires Matches(p, q)
    ensures (forall s :: Matches(q, s) ==> Matches(p, s)) <==> RestAt(q) == |q| || RestAt(p) <= RestAt(q)
  {
    var g, h := RestAt(q), RestAt(p);
    if g == |q| || h <= g {
      forall s | Matches(q, s) ensures Matches(p, s) {
        forall i | 0 <= i < h ensures StandsFor(p[i], s[i]) {
          assert StandsFor(p[i], q[i]) && StandsFor(q[i], s[i]);
        }
      }
    } else {
      var one, two := Sample(q, 1), Sample(q, 2);
      assert Matches(q, one) && Matches(q, two);
      assert |one| == g + 1 && |two| == g + 2;
      assert !Matches(p, one) || !Matches(p, two);
    }
  }
}
