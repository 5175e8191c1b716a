/** The institution card of the catalog (components/ProgramCard.tsx): the
    scholarships and tags it summarises from the institution's programs. */
module ProgramCard {
  import opened Wrappers
  import opened Sequences
  import opened Catalog
  import Programs

  /** The scholarships a program lists; a missing list is empty. */
  function ScholarshipsOf(p: Program): seq<Scholarship> {
    p.scholarships.GetOr([])
  }

  /** Every scholarship of every program, program by program, in order. */
  function AllScholarships(programs: seq<Program>): (r: seq<Scholarship>)
    ensures r == [] <==> forall i :: 0 <= i < |programs| ==> !OffersScholarships(programs[i])
    ensures forall i, j :: 0 <= i < |programs| && 0 <= j < |ScholarshipsOf(programs[i])| ==>
      ScholarshipsOf(programs[i])[j] in r
    ensures forall s :: s in r ==> exists i :: 0 <= i < |programs| && s in ScholarshipsOf(programs[i])
  {
    if programs == [] then []
    else
      var rest := AllScholarships(programs[1..]);
      assert forall i :: 1 <= i < |programs| ==> programs[i] == programs[1..][i - 1];
      assert forall s :: s in rest ==> exists i :: 0 <= i < |programs| && s in ScholarshipsOf(programs[i]) by {
        forall s | s in rest ensures exists i :: 0 <= i < |programs| && s in ScholarshipsOf(programs[i]) {
          var i :| 0 <= i < |programs| - 1 && s in ScholarshipsOf(programs[1..][i]);
          assert programs[1..][i] == programs[i + 1];
        }
      }
      ScholarshipsOf(programs[0]) + rest
  }

  /** The flattening keeps program order: the scholarships of a longer
      program list follow those of its first part. */
  lemma {:induction false} AllScholarshipsAppend(a: seq<Program>, b: seq<Program>)
    ensures AllScholarships(a + b) == AllScholarships(a) + AllScholarships(b)
  {
    if a == [] {
      assert a + b == b;
    } else {
      ConsConcat(a, b);
      AllScholarshipsAppend(a[1..], b);
    }
  }

  /** Each tag once, in the order of its first occurrence. */
  function UniqueTags(programs: seq<Program>): (r: seq<string>)
    ensures NoDups(r)
    ensures forall i :: 0 <= i < |r| ==> r[i] in Programs.ProgramTags(programs)
    ensures forall t :: t in Programs.ProgramTags(programs) ==> t in r
    ensures forall i, j :: 0 <= i < j < |r| ==>
      IndexOf(Programs.ProgramTags(programs), r[i]) < IndexOf(Programs.ProgramTags(programs), r[j])
  {
    var all := Programs.ProgramTags(programs);
    DedupeFirstOccurrenceOrder(all);
    Dedupe(all)
  }

  /** The tags shown: the first three unique tags, or all of them when
      there are fewer. */
  function TopTags(programs: seq<Program>): (r: seq<string>)
    ensures var u := UniqueTags(programs);
      |r| == if |u| < 3 then |u| else 3
    ensures r <= UniqueTags(programs)
    ensures NoDups(r)
  {
    var u := UniqueTags(programs);
    if |u| < 3 then u else u[..3]
  }

  /** The scholarship list of the card: at most two names, then a line
      counting the rest when there are more than two. */
  datatype ScholarshipPreview = ScholarshipPreview(listed: seq<Scholarship>, more: Option<nat>)

  /** The scholarship section, or nothing when no program lists one. */
  function ScholarshipSection(programs: seq<Program>): (r: Option<ScholarshipPreview>)
    ensures r.None? <==> forall i :: 0 <= i < |programs| ==> !OffersScholarships(programs[i])
    ensures r.Some? ==> |r.value.listed| <= 2 && r.value.listed <= AllScholarships(programs)
    ensures r.Some? ==> (r.value.more.Some? <==> |AllScholarships(programs)| > 2)
    ensures r.Some? && r.value.more.Some? ==>
      |r.value.listed| + r.value.more.value == |AllScholarships(programs)|
    ensures r.Some? ==>
      r.value.listed == AllScholarships(programs)[..if |AllScholarships(programs)| < 2 then |AllScholarships(programs)| else 2]
    ensures r.Some? && r.value.more.Some? ==> r.value.more.value == |AllScholarships(programs)| - 2
  {
    var all := AllScholarships(programs);
    if |all| == 0 then None
    else if |all| <= 2 then Some(ScholarshipPreview(all, None))
    else Some(ScholarshipPreview(all[..2], Some(|all| - 2)))
  }

  /** The NUST card lists both scholarships of Mechanical Engineering and
      no "more" line. */
  lemma NustCardScholarships()
    ensures ScholarshipSection(Nust.programs) == Some(ScholarshipPreview([DawoodScholarship, NeedBasedScholarship], None))
  {
    var ps := Nust.programs;
    assert ps[1..][1..] == [];
    assert AllScholarships(ps[1..]) == [];
    assert AllScholarships(ps) == [DawoodScholarship, NeedBasedScholarship];
  }

  /** The tags of NUST's two programs collapse to STEM, Engineering and
      Technology, in that order. */
  lemma NustCardTags()
    ensures TopTags(Nust.programs) == ["STEM", "Engineering", "Technology"]
  {
    var ps := Nust.programs;
    assert ps[1..][1..] == [];
    assert Programs.ProgramTags(ps[1..][1..]) == [];
    assert Programs.ProgramTags(ps[1..]) == ["STEM", "Technology"];
    var all := Programs.ProgramTags(ps);
    assert all == ["STEM", "Engineering", "STEM", "Technology"];
    DedupeSmall(all);
  }

  lemma DedupeSmall(all: seq<string>)
    requires all == ["STEM", "Engineering", "STEM", "Technology"]
    ensures Dedupe(all) == ["STEM", "Engineering", "Technology"]
  {
    assert all[..1] == ["STEM"];
    assert all[..2] == ["STEM", "Engineering"];
    assert all[..3] == ["STEM", "Engineering", "STEM"];
    assert all[..3][..2] == all[..2];
    assert all[..2][..1] == all[..1];
    assert Dedupe(all[..1]) == ["STEM"];
    assert Dedupe(all[..2]) == ["STEM", "Engineering"];
    assert Dedupe(all[..3]) == ["STEM", "Engineering"];
  }
}
