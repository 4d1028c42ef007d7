/** DICOM data sets as trees, the fixed list of identifying tags, and the
    tag filter remove_tags_recursive (AnonyMRI/core.py:9-35). */
module Dicom {
  import opened Text

  /** A data element tag: (group, element). */
  type Tag = (int, int)

  /** A data element: a value (standing for the text str() gives of it) or
      a sequence (VR SQ) of nested data sets. */
  datatype Element = Leaf(value: string) | Sq(items: seq<Dataset>)

  /** A data set: its elements, keyed by tag. */
  datatype Dataset = Dataset(elems: map<Tag, Element>)

  // Tags of the data dictionary (DICOM PS3.6) that the program reads or writes.
  const PatientNameTag: Tag := (0x0010, 0x0010)
  const PatientIdTag: Tag := (0x0010, 0x0020)
  const PatientBirthDateTag: Tag := (0x0010, 0x0030)
  const StudyDateTag: Tag := (0x0008, 0x0020)
  const StudyInstanceUidTag: Tag := (0x0020, 0x000D)
  const MagneticFieldStrengthTag: Tag := (0x0018, 0x0087)
  const ManufacturerTag: Tag := (0x0008, 0x0070)
  const ManufacturerModelNameTag: Tag := (0x0008, 0x1090)

  /** TAGS_TO_REMOVE, in the source's order. */
  const TagsToRemove: seq<Tag> := [
    (0x0010, 0x0010),  // Patient's Name
    (0x0010, 0x0020),  // Patient ID (written back afterwards)
    (0x0010, 0x0030),  // Patient's Birth Date
    (0x0010, 0x0040),  // Patient's Sex
    (0x0010, 0x1010),  // Patient's Age
    (0x0010, 0x1030),  // Patient's Weight
    (0x0018, 0x5100),  // Patient Position
    (0x0010, 0x0032),  // Patient's Birth Time
    (0x0008, 0x0090),  // Referring Physician's Name
    (0x0008, 0x0050),  // Accession Number
    (0x0008, 0x0080),  // Institution Name
    (0x0008, 0x0081),  // Institution Address
    (0x0008, 0x1040),  // Institutional Department Name
    (0x0008, 0x1070),  // Operators' Name
    (0x0010, 0x21B0),  // Additional Patient History
    (0x0010, 0x4000)   // Patient Comments
  ]

  /** The removal list has 16 distinct tags, Patient ID and Patient's Name
      among them. */
  lemma TagsToRemoveFacts()
    ensures |TagsToRemove| == 16
    ensures forall i, j :: 0 <= i < j < |TagsToRemove| ==> TagsToRemove[i] != TagsToRemove[j]
    ensures PatientIdTag in TagsToRemove && PatientNameTag in TagsToRemove
    ensures PatientBirthDateTag in TagsToRemove
  {
  }

  /** The data set left by remove_tags_recursive: every listed tag removed
      at the top level and, recursively, in every item of every sequence. */
  function StripTags(ds: Dataset, tags: seq<Tag>): Dataset
    decreases ds
  {
    Dataset(map k | k in ds.elems && k !in tags :: StripElement(ds.elems[k], tags))
  }

  function StripElement(e: Element, tags: seq<Tag>): Element
    decreases e
  {
    match e
    case Leaf(_) => e
    case Sq(items) => Sq(seq(|items|, i requires 0 <= i < |items| => StripTags(items[i], tags)))
  }

  /** remove_tags_recursive(ds, tags): first every listed tag present at the
      top level is deleted, then every remaining sequence element has each of
      its items filtered the same way. The data set is a value here: the
      method returns the filtered data set instead of changing its argument. */
  method RemoveTagsRecursive(ds: Dataset, tags: seq<Tag>) returns (r: Dataset)
    ensures r == StripTags(ds, tags)
    decreases ds
  {
    var elems := DeleteTags(ds.elems, tags);
    ghost var target := StripTags(ds, tags).elems;
    var pending := elems.Keys;
    while pending != {}
      invariant pending <= elems.Keys == target.Keys
      invariant forall k :: k in pending ==> elems[k] == ds.elems[k] && target[k] == StripElement(ds.elems[k], tags)
      invariant forall k :: k in elems && k !in pending ==> elems[k] == target[k]
      decreases pending
    {
      var k :| k in pending;
      var e := elems[k];
      if e.Sq? {
        var filtered := RemoveTagsFromItems(e.items, tags);
        elems := elems[k := Sq(filtered)];
      }
      pending := pending - {k};
    }
    assert elems == target;
    r := Dataset(elems);
  }

  /** The first loop of remove_tags_recursive: each listed tag present at
      the top level is deleted. */
  method DeleteTags(elems: map<Tag, Element>, tags: seq<Tag>) returns (kept: map<Tag, Element>)
    ensures kept == map k | k in elems && k !in tags :: elems[k]
  {
    kept := elems;
    for i := 0 to |tags|
      invariant kept == map k | k in elems && k !in tags[..i] :: elems[k]
    {
      if tags[i] in kept {
        kept := kept - {tags[i]};
      }
      assert tags[..i + 1] == tags[..i] + [tags[i]];
    }
    assert tags[..|tags|] == tags;
  }

  /** The inner loop of remove_tags_recursive: every item of one sequence
      element filtered in turn. */
  method RemoveTagsFromItems(items: seq<Dataset>, tags: seq<Tag>) returns (filtered: seq<Dataset>)
    ensures Sq(filtered) == StripElement(Sq(items), tags)
    decreases items
  {
    filtered := [];
    for j := 0 to |items|
      invariant |filtered| == j
      invariant forall m :: 0 <= m < j ==> filtered[m] == StripTags(items[m], tags)
    {
      var item := RemoveTagsRecursive(items[j], tags);
      filtered := filtered + [item];
    }
  }

  // ---------------------------------------------------------------------
  // Looking elements up along a path of sequence items

  /** One step down the tree: into item `index` of the sequence at `tag`. */
  datatype Step = Step(tag: Tag, index: nat)

  /** The element with tag t in the data set reached from ds by following
      path, if there is one. */
  function ElementAt(ds: Dataset, path: seq<Step>, t: Tag): Option<Element>
    decreases |path|
  {
    if path == [] then
      if t in ds.elems then Some(ds.elems[t]) else None
    else
      var s := path[0];
      if s.tag in ds.elems && ds.elems[s.tag].Sq? && s.index < |ds.elems[s.tag].items|
      then ElementAt(ds.elems[s.tag].items[s.index], path[1..], t)
      else None
  }

  /** What of an element a reader sees without descending further: a
      value, or the number of items of a sequence. */
  datatype Shape = ValueShape(value: string) | SequenceShape(length: nat)

  function ShapeOf(e: Option<Element>): Option<Shape> {
    match e
    case None => None
    case Some(Leaf(v)) => Some(ValueShape(v))
    case Some(Sq(items)) => Some(SequenceShape(|items|))
  }

  /** Neither the element's tag nor any sequence on the way to it is listed. */
  predicate Avoids(path: seq<Step>, t: Tag, tags: seq<Tag>) {
    t !in tags && forall i :: 0 <= i < |path| ==> path[i].tag !in tags
  }

  /** No listed tag occurs anywhere in ds. */
  ghost predicate FreeOf(ds: Dataset, tags: seq<Tag>) {
    forall path, t :: t in tags ==> ElementAt(ds, path, t) == None
  }

  /** The filter removes exactly the listed tags: at every depth, an element
      whose path avoids the list keeps its value, or its sequence keeps its
      number of items; every other element is gone. */
  lemma {:induction false} StripShapeAt(ds: Dataset, tags: seq<Tag>, path: seq<Step>, t: Tag)
    ensures ShapeOf(ElementAt(StripTags(ds, tags), path, t))
         == if Avoids(path, t, tags) then ShapeOf(ElementAt(ds, path, t)) else None
    decreases |path|
  {
    if path != [] {
      var st := path[0];
      assert forall i :: 0 <= i < |path[1..]| ==> path[1..][i] == path[i + 1];
      if st.tag in ds.elems && st.tag !in tags && ds.elems[st.tag].Sq? && st.index < |ds.elems[st.tag].items| {
        StripShapeAt(ds.elems[st.tag].items[st.index], tags, path[1..], t);
      }
    }
  }

  /** Completeness: after the filter, no listed tag is left at any depth. */
  lemma StripRemovesAll(ds: Dataset, tags: seq<Tag>)
    ensures FreeOf(StripTags(ds, tags), tags)
  {
    forall path: seq<Step>, t: Tag | t in tags
      ensures ElementAt(StripTags(ds, tags), path, t) == None
    {
      StripShapeAt(ds, tags, path, t);
    }
  }

  /** Filtering twice is filtering once. */
  lemma {:induction false} StripIdempotent(ds: Dataset, tags: seq<Tag>)
    ensures StripTags(StripTags(ds, tags), tags) == StripTags(ds, tags)
    decreases ds
  {
    var s := StripTags(ds, tags);
    forall k | k in s.elems
      ensures StripElement(s.elems[k], tags) == s.elems[k]
    {
      var e := ds.elems[k];
      assert s.elems[k] == StripElement(e, tags);
      if e.Sq? {
        var once := s.elems[k];
        assert once == StripElement(e, tags);
        assert |once.items| == |e.items|;
        forall i | 0 <= i < |once.items|
          ensures StripTags(once.items[i], tags) == once.items[i]
        {
          assert once.items[i] == StripTags(e.items[i], tags);
          StripIdempotent(e.items[i], tags);
        }
        assert StripElement(once, tags).items == once.items;
        assert StripElement(once, tags) == Sq(StripElement(once, tags).items);
      } else {
        assert s.elems[k] == e;
      }
    }
    assert StripTags(s, tags).elems == s.elems;
  }

  // ---------------------------------------------------------------------
  // Reading and writing top-level attributes

  /** getattr(ds, keyword, default) for the keyword of tag t: the element's
      value when it is present as a value, else the default. */
  function Attr(ds: Dataset, t: Tag, default: string): (r: string)
    ensures t !in ds.elems ==> r == default
  {
    if t in ds.elems && ds.elems[t].Leaf? then ds.elems[t].value else default
  }

  /** getattr(ds, keyword, None) for the keyword of tag t. */
  function OptionalAttr(ds: Dataset, t: Tag): (r: Option<string>)
    ensures r.None? <==> t !in ds.elems || ds.elems[t].Sq?
  {
    if t in ds.elems && ds.elems[t].Leaf? then Some(ds.elems[t].value) else None
  }

  /** The data set with its Patient ID set to id. */
  function SetPatientId(ds: Dataset, id: string): Dataset {
    Dataset(ds.elems[PatientIdTag := Leaf(id)])
  }

  /** The data set written for one input file: filtered, then given the
      pseudonymous Patient ID (AnonyMRI/core.py:94-96). */
  function Sanitized(ds: Dataset, id: string): Dataset {
    SetPatientId(StripTags(ds, TagsToRemove), id)
  }

  /** What a written file must satisfy: Patient ID at the top level is id,
      and no listed tag occurs anywhere else. */
  ghost predicate Anonymized(ds: Dataset, id: string) {
    && ElementAt(ds, [], PatientIdTag) == Some(Leaf(id))
    && forall path, t :: t in TagsToRemove && (path != [] || t != PatientIdTag) ==> ElementAt(ds, path, t) == None
  }

  /** Every written file carries the pseudonymous Patient ID and none of the
      other fifteen identifying tags, at any depth. */
  lemma SanitizedIsAnonymized(ds: Dataset, id: string)
    ensures Anonymized(Sanitized(ds, id), id)
  {
    var s := StripTags(ds, TagsToRemove);
    var w := Sanitized(ds, id);
    forall path: seq<Step>, t: Tag | t in TagsToRemove && (path != [] || t != PatientIdTag)
      ensures ElementAt(w, path, t) == None
    {
      StripShapeAt(ds, TagsToRemove, path, t);
      if path != [] {
        assert path[0].tag != PatientIdTag ==> ElementAt(w, path, t) == ElementAt(s, path, t);
        if path[0].tag != PatientIdTag {
          assert ElementAt(s, path, t) == None;
        }
      }
    }
  }

  /** Apart from the Patient ID written at the top level, a written file
      holds exactly what the input held outside the listed tags. */
  lemma SanitizedKeepsOthers(ds: Dataset, id: string, path: seq<Step>, t: Tag)
    requires Avoids(path, t, TagsToRemove)
    ensures ShapeOf(ElementAt(Sanitized(ds, id), path, t)) == ShapeOf(ElementAt(ds, path, t))
  {
    TagsToRemoveFacts();
    StripShapeAt(ds, TagsToRemove, path, t);
    var s := StripTags(ds, TagsToRemove);
    if path != [] {
      assert path[0].tag != PatientIdTag;
      assert ElementAt(Sanitized(ds, id), path, t) == ElementAt(s, path, t);
    }
  }
}
