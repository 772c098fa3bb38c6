/**
 * The projection of raw exhibition items into the response shape: every field may be null,
 * a missing attribute (or one without the expected member) becomes null, values pass through
 * unchanged, and the nested content list keeps "absent" apart from "empty".
 */
module Projection {
  import opened Wrappers
  import opened Dynamo

  /** One projected entry of an exhibition's content list. */
  datatype ContentItem = ContentItem(
    CreationDate: Option<string>,
    ItemClassification: Option<string>,
    ItemObjectLink: Option<string>,
    ItemDepartment: Option<string>,
    ItemTitle: Option<string>,
    ArtistBirthplace: Option<string>,
    ArtistName: Option<string>,
    ItemTechnique: Option<string>,
    ItemCentury: Option<string>,
    ItemCreditline: Option<string>,
    ItemID: Option<string>)

  /** One projected exhibition. */
  datatype Exhibition = Exhibition(
    ExhibitionID: Option<string>,
    ExhibitionName: Option<string>,
    ExhibitionLength: Option<string>,
    ExhibitionImage: Option<string>,
    ExhibitionPublic: Option<string>,
    ExhibitContent: Option<seq<ContentItem>>)

  /** The content item with every field null. */
  const NullContentItem := ContentItem(None, None, None, None, None, None, None, None, None, None, None)

  /** `m.GetValueOrDefault(key)?.N`: the number stored under `key`, or null. */
  function GetN(m: map<string, AttributeValue>, key: string): (r: Option<string>)
    ensures r.None? <==> key !in m || m[key].N.None?
    ensures r.Some? ==> m[key].N == r
  {
    if key in m then m[key].N else None
  }

  /** `m.GetValueOrDefault(key)?.S`: the string stored under `key`, or null. */
  function GetS(m: map<string, AttributeValue>, key: string): (r: Option<string>)
    ensures r.None? <==> key !in m || m[key].S.None?
    ensures r.Some? ==> m[key].S == r
  {
    if key in m then m[key].S else None
  }

  /** LINQ's `Select`: `f` applied to every element, in order. */
  function Select<A, B>(xs: seq<A>, f: A -> B): (ys: seq<B>)
    ensures |ys| == |xs|
    ensures forall i :: 0 <= i < |xs| ==> ys[i] == f(xs[i])
  {
    if xs == [] then [] else [f(xs[0])] + Select(xs[1..], f)
  }

  /** Projects one entry of the `ExhibitContent` list; an entry without a map projects to all nulls. */
  function ProjectContent(content: AttributeValue): (c: ContentItem)
    ensures content.M.None? ==> c == NullContentItem
    ensures content.M.Some? ==> forall key :: key in ContentKeys ==>
              ContentField(c, key) == if key in StringContentKeys then GetS(content.M.value, key)
                                      else GetN(content.M.value, key)
  {
    match content.M
    case None => NullContentItem
    case Some(m) =>
      ContentItem(
        GetN(m, "CreationDate"),
        GetS(m, "ItemClassification"),
        GetS(m, "ItemObjectLink"),
        GetS(m, "ItemDepartment"),
        GetS(m, "ItemTitle"),
        GetS(m, "ArtistBirthplace"),
        GetS(m, "ArtistName"),
        GetS(m, "ItemTechnique"),
        GetS(m, "ItemCentury"),
        GetS(m, "ItemCreditline"),
        GetN(m, "ItemID"))
  }

  /** The content attributes read through their string member. */
  const StringContentKeys: set<string> := {
    "ItemClassification", "ItemObjectLink", "ItemDepartment", "ItemTitle", "ArtistBirthplace",
    "ArtistName", "ItemTechnique", "ItemCentury", "ItemCreditline" }

  /** `ExhibitionPublic` is read as a number if it has one, otherwise as a string. */
  function PublicFlag(item: Record): (r: Option<string>)
    ensures "ExhibitionPublic" !in item ==> r.None?
    ensures "ExhibitionPublic" in item && item["ExhibitionPublic"].N.Some? ==> r == item["ExhibitionPublic"].N
    ensures "ExhibitionPublic" in item && item["ExhibitionPublic"].N.None? ==> r == item["ExhibitionPublic"].S
  {
    match GetN(item, "ExhibitionPublic")
    case Some(n) => Some(n)
    case None => GetS(item, "ExhibitionPublic")
  }

  /** The `ExhibitContent` list, projected entry by entry, or null when there is no list. */
  function ContentList(item: Record): (r: Option<seq<ContentItem>>)
    ensures r.None? <==> "ExhibitContent" !in item || item["ExhibitContent"].L.None?
    ensures r.Some? ==> |r.value| == |item["ExhibitContent"].L.value|
    ensures r.Some? ==> forall i :: 0 <= i < |r.value| ==> r.value[i] == ProjectContent(item["ExhibitContent"].L.value[i])
  {
    if "ExhibitContent" in item && item["ExhibitContent"].L.Some? then
      Some(Select(item["ExhibitContent"].L.value, ProjectContent))
    else
      None
  }

  /** Projects one raw exhibition item into the response shape. */
  function ProjectExhibition(item: Record): (e: Exhibition)
    ensures e.ExhibitionID.None? <==> "ExhibitionID" !in item || item["ExhibitionID"].N.None?
    ensures e.ExhibitionID.Some? ==> e.ExhibitionID == item["ExhibitionID"].N
    ensures e.ExhibitionName.None? <==> "ExhibitionName" !in item || item["ExhibitionName"].S.None?
    ensures e.ExhibitionName.Some? ==> e.ExhibitionName == item["ExhibitionName"].S
    ensures e.ExhibitionLength.None? <==> "ExhibitionLength" !in item || item["ExhibitionLength"].N.None?
    ensures e.ExhibitionLength.Some? ==> e.ExhibitionLength == item["ExhibitionLength"].N
    ensures e.ExhibitionImage.None? <==> "ExhibitionImage" !in item || item["ExhibitionImage"].S.None?
    ensures e.ExhibitionImage.Some? ==> e.ExhibitionImage == item["ExhibitionImage"].S
    ensures e.ExhibitionPublic == PublicFlag(item)
    ensures e.ExhibitContent == ContentList(item)
  {
    Exhibition(
      GetN(item, "ExhibitionID"),
      GetS(item, "ExhibitionName"),
      GetN(item, "ExhibitionLength"),
      GetS(item, "ExhibitionImage"),
      PublicFlag(item),
      ContentList(item))
  }

  /** Projects every merged item, in order (the outer `Select(...).ToList()`). */
  function ProjectAll(results: seq<Record>): (es: seq<Exhibition>)
    ensures |es| == |results|
    ensures forall i :: 0 <= i < |results| ==> es[i] == ProjectExhibition(results[i])
  {
    Select(results, ProjectExhibition)
  }

  /** Projecting a concatenation projects each part: the merged order survives projection. */
  lemma ProjectAllAppend(a: seq<Record>, b: seq<Record>)
    ensures ProjectAll(a + b) == ProjectAll(a) + ProjectAll(b)
  {
  }

  // ---------------------------------------------------------------------------------------------
  // The inverse direction: storing a projected value as a raw item. Projection undoes it, so a
  // record whose attributes are all present in their expected form comes back unchanged.

  /** The names of a content entry's attributes. */
  const ContentKeys: set<string> := StringContentKeys + {"CreationDate", "ItemID"}

  /** The field of `c` that attribute `key` projects into. */
  function ContentField(c: ContentItem, key: string): Option<string>
  {
    if key == "CreationDate" then c.CreationDate
    else if key == "ItemClassification" then c.ItemClassification
    else if key == "ItemObjectLink" then c.ItemObjectLink
    else if key == "ItemDepartment" then c.ItemDepartment
    else if key == "ItemTitle" then c.ItemTitle
    else if key == "ArtistBirthplace" then c.ArtistBirthplace
    else if key == "ArtistName" then c.ArtistName
    else if key == "ItemTechnique" then c.ItemTechnique
    else if key == "ItemCentury" then c.ItemCentury
    else if key == "ItemCreditline" then c.ItemCreditline
    else if key == "ItemID" then c.ItemID
    else None
  }

  /** A content entry as a DynamoDB map attribute: each present field under its name, in its expected form. */
  function ContentAttribute(c: ContentItem): AttributeValue
  {
    AttributeValue(None, None, None, Some(
      map key | key in ContentKeys && ContentField(c, key).Some? ::
        if key in StringContentKeys then StringValue(ContentField(c, key).value)
        else NumberValue(ContentField(c, key).value)))
  }

  /** The exhibition attributes that hold a single value, and those of them read as strings. */
  const ScalarKeys: set<string> := {"ExhibitionID", "ExhibitionName", "ExhibitionLength", "ExhibitionImage", "ExhibitionPublic"}
  const StringScalarKeys: set<string> := {"ExhibitionName", "ExhibitionImage"}

  /** The field of `e` that single-valued attribute `key` projects into. */
  function ExhibitionField(e: Exhibition, key: string): Option<string>
  {
    if key == "ExhibitionID" then e.ExhibitionID
    else if key == "ExhibitionName" then e.ExhibitionName
    else if key == "ExhibitionLength" then e.ExhibitionLength
    else if key == "ExhibitionImage" then e.ExhibitionImage
    else if key == "ExhibitionPublic" then e.ExhibitionPublic
    else None
  }

  /**
   * An exhibition as a raw item: each present field under its name in its expected form (the
   * visibility flag as a number), and the content list, when there is one, as a list of maps.
   */
  function ExhibitionRecord(e: Exhibition): Record
  {
    var scalars := map key | key in ScalarKeys && ExhibitionField(e, key).Some? ::
      if key in StringScalarKeys then StringValue(ExhibitionField(e, key).value)
      else NumberValue(ExhibitionField(e, key).value);
    if e.ExhibitContent.Some? then
      scalars["ExhibitContent" := AttributeValue(None, None, Some(Select(e.ExhibitContent.value, ContentAttribute)), None)]
    else
      scalars
  }

  /** A single-valued attribute of a stored exhibition reads back as its field, and only in its expected form. */
  lemma ExhibitionFieldRoundTrip(e: Exhibition, key: string)
    requires key in ScalarKeys
    ensures key in StringScalarKeys ==> GetS(ExhibitionRecord(e), key) == ExhibitionField(e, key)
    ensures key !in StringScalarKeys ==> GetN(ExhibitionRecord(e), key) == ExhibitionField(e, key)
    ensures key !in StringScalarKeys ==> GetS(ExhibitionRecord(e), key).None?
  {
    assert key != "ExhibitContent";
  }

  /** Projection undoes storing a content entry. */
  lemma ContentRoundTrip(c: ContentItem)
    ensures ProjectContent(ContentAttribute(c)) == c
  {
    var m := ContentAttribute(c).M.value;
    ContentFieldRoundTrip(c, "CreationDate");
    ContentFieldRoundTrip(c, "ItemClassification");
    ContentFieldRoundTrip(c, "ItemObjectLink");
    ContentFieldRoundTrip(c, "ItemDepartment");
    ContentFieldRoundTrip(c, "ItemTitle");
    ContentFieldRoundTrip(c, "ArtistBirthplace");
    ContentFieldRoundTrip(c, "ArtistName");
    ContentFieldRoundTrip(c, "ItemTechnique");
    ContentFieldRoundTrip(c, "ItemCentury");
    ContentFieldRoundTrip(c, "ItemCreditline");
    ContentFieldRoundTrip(c, "ItemID");
  }

  /** Reading attribute `key` back, through the member projection reads it by, gives its field. */
  lemma ContentFieldRoundTrip(c: ContentItem, key: string)
    requires key in ContentKeys
    ensures key in StringContentKeys ==> GetS(ContentAttribute(c).M.value, key) == ContentField(c, key)
    ensures key !in StringContentKeys ==> GetN(ContentAttribute(c).M.value, key) == ContentField(c, key)
  {
  }

  /** Projection undoes storing an exhibition: every present value comes back unchanged. */
  lemma {:induction false} ExhibitionRoundTrip(e: Exhibition)
    ensures ProjectExhibition(ExhibitionRecord(e)) == e
  {
    var r := ExhibitionRecord(e);
    ExhibitionFieldRoundTrip(e, "ExhibitionID");
    ExhibitionFieldRoundTrip(e, "ExhibitionName");
    ExhibitionFieldRoundTrip(e, "ExhibitionLength");
    ExhibitionFieldRoundTrip(e, "ExhibitionImage");
    ExhibitionFieldRoundTrip(e, "ExhibitionPublic");
    assert "ExhibitContent" !in ScalarKeys;
    if e.ExhibitContent.Some? {
      var cs := e.ExhibitContent.value;
      var back := Select(Select(cs, ContentAttribute), ProjectContent);
      forall i | 0 <= i < |cs| ensures back[i] == cs[i] {
        ContentRoundTrip(cs[i]);
      }
      assert back == cs;
    }
  }
}
