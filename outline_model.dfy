/**
 * The outline data model shared by the parsers, the editor and the dashboard:
 * `OutlineSection` and `OutlineData` (src/types/outline.ts, redeclared in
 * src/pages/OutlineEditor.tsx), and the `section-<index>` identifiers the
 * parsers assign.
 */
module OutlineModel {
  import opened Wrappers
  import opened Text

  /** One heading of an outline; `brief` is the optional `brief?: string`. */
  datatype Section = Section(id: string, level: int, title: string, brief: Option<string>)

  datatype Outline = Outline(title: string, sections: seq<Section>)

  const IdPrefix := "section-"

  /** The template literal `section-${index}`. */
  function SectionId(index: nat): (id: string)
    ensures StartsWith(id, IdPrefix)
  {
    IdPrefix + Decimal(index)
  }

  /** Different line indices give different section identifiers. */
  lemma SectionIdInjective(a: nat, b: nat)
    requires SectionId(a) == SectionId(b)
    ensures a == b
  {
    assert SectionId(a)[|IdPrefix|..] == Decimal(a);
    assert SectionId(b)[|IdPrefix|..] == Decimal(b);
    DecimalInjective(a, b);
  }

  /** The zero or one value a step contributes: a pushed section, or a heading found. */
  function Emitted<T>(s: Option<T>): (r: seq<T>)
    ensures |r| == if s.Some? then 1 else 0
  {
    if s.Some? then [s.value] else []
  }

  predicate StrictlyIncreasing(xs: seq<nat>) {
    forall i, j :: 0 <= i < j < |xs| ==> xs[i] < xs[j]
  }

  predicate DistinctIds(sections: seq<Section>) {
    forall i, j :: 0 <= i < j < |sections| ==> sections[i].id != sections[j].id
  }

  /**
   * The sections a run of push-or-skip steps leaves behind, in order: step
   * `i` pushed `steps[i].value` if it pushed anything.
   */
  function Collect(steps: seq<Option<Section>>): (r: seq<Section>)
    ensures |r| <= |steps|
  {
    if steps == [] then [] else Collect(steps[..|steps| - 1]) + Emitted(steps[|steps| - 1])
  }

  /** For each collected section, the step that pushed it. */
  ghost function CollectOrigins(steps: seq<Option<Section>>): seq<nat> {
    if steps == [] then []
    else
      var last: nat := |steps| - 1;
      CollectOrigins(steps[..last]) + if steps[last].Some? then [last] else []
  }

  /**
   * Collected sections keep the order of the steps that pushed them, each is
   * exactly what its step pushed, and every pushing step contributes.
   */
  lemma {:induction false} CollectOrder(steps: seq<Option<Section>>)
    ensures var ss, os := Collect(steps), CollectOrigins(steps);
      && |ss| == |os|
      && StrictlyIncreasing(os)
      && (forall m :: 0 <= m < |os| ==> os[m] < |steps| && steps[os[m]] == Some(ss[m]))
      && (forall i :: 0 <= i < |steps| && steps[i].Some? ==> i in os)
  {
    if steps != [] {
      var last := |steps| - 1;
      var prefix := steps[..last];
      var ss, os := Collect(steps), CollectOrigins(steps);
      var ps, po := Collect(prefix), CollectOrigins(prefix);
      CollectOrder(prefix);
      assert ss == ps + Emitted(steps[last]);
      assert os == po + if steps[last].Some? then [last] else [];
      forall i, j | 0 <= i < j < |os|
        ensures os[i] < os[j]
      {
        assert os[i] == po[i];
        if j < |po| {
          assert os[j] == po[j];
        }
      }
      forall m | 0 <= m < |os|
        ensures os[m] < |steps| && steps[os[m]] == Some(ss[m])
      {
        if m < |po| {
          assert os[m] == po[m] && ss[m] == ps[m];
          assert steps[po[m]] == prefix[po[m]];
        }
      }
      forall i | 0 <= i < |steps| && steps[i].Some?
        ensures i in os
      {
        if i < last {
          assert steps[i] == prefix[i];
          assert i in po;
        }
      }
    }
  }

  /** If step `i` can only push a section with id `section-<i>`, the collected ids are pairwise distinct. */
  lemma CollectDistinctIds(steps: seq<Option<Section>>)
    requires forall i :: 0 <= i < |steps| && steps[i].Some? ==> steps[i].value.id == SectionId(i)
    ensures DistinctIds(Collect(steps))
  {
    var ss, os := Collect(steps), CollectOrigins(steps);
    CollectOrder(steps);
    forall i, j | 0 <= i < j < |ss|
      ensures ss[i].id != ss[j].id
    {
      assert steps[os[i]] == Some(ss[i]) && steps[os[j]] == Some(ss[j]);
      if ss[i].id == ss[j].id {
        SectionIdInjective(os[i], os[j]);
      }
    }
  }

  /** Every collected section is one that some step pushed. */
  lemma CollectMembers(steps: seq<Option<Section>>, s: Section)
    requires s in Collect(steps)
    ensures exists i :: 0 <= i < |steps| && steps[i] == Some(s)
  {
    CollectOrder(steps);
    var ss, os := Collect(steps), CollectOrigins(steps);
    var m :| 0 <= m < |ss| && ss[m] == s;
    assert steps[os[m]] == Some(s);
  }

  /** The `(level, title)` pairs of a section list, the part of a section a re-parse can recover. */
  function Headings(sections: seq<Section>): (r: seq<(int, string)>)
    ensures |r| == |sections|
    ensures forall i :: 0 <= i < |r| ==> r[i] == (sections[i].level, sections[i].title)
  {
    seq(|sections|, i requires 0 <= i < |sections| => (sections[i].level, sections[i].title))
  }
}
