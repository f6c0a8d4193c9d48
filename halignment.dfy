/** road/halignment.rs: the horizontal alignment of a road axis, a growable list of sections
    in travel order. */
module HAlignments {
  import opened HSections
  import HTangents
  import HCircles
  import HClothoids

  class HAlignment {
    /** The sections in the order they were added. */
    var sections: seq<HSection>

    /** Every section satisfies what its constructor guarantees. */
    predicate AllValid()
      reads this
    {
      forall i :: 0 <= i < |sections| ==> Valid(sections[i])
    }

    /** HAlignment::new: an alignment with no sections. */
    constructor ()
      ensures sections == [] && AllValid()
    {
      sections := [];
    }

    /** HAlignment::add: appends the section at the end. Nothing is checked: the section need
        not start where the previous one ends. */
    method Add(section: HSection)
      modifies this
      ensures sections == old(sections) + [section]
      ensures |sections| == |old(sections)| + 1
      ensures sections[..|old(sections)|] == old(sections) && sections[|old(sections)|] == section
      ensures old(AllValid()) && Valid(section) ==> AllValid()
    {
      sections := sections + [section];
    }

    /** HAlignment::add_htangent: `Add` of the tangent as a section. */
    method AddHTangent(tangent: HTangents.HTangent)
      modifies this
      ensures sections == old(sections) + [TangentSection(tangent)]
    {
      Add(TangentSection(tangent));
    }

    /** HAlignment::add_hcircle: `Add` of the circle as a section. */
    method AddHCircle(circle: HCircles.HCircle)
      modifies this
      ensures sections == old(sections) + [CircleSection(circle)]
    {
      Add(CircleSection(circle));
    }

    /** HAlignment::add_hclothoid: `Add` of the clothoid as a section. */
    method AddHClothoid(clothoid: HClothoids.HClothoid)
      modifies this
      ensures sections == old(sections) + [ClothoidSection(clothoid)]
    {
      Add(ClothoidSection(clothoid));
    }
  }
}
