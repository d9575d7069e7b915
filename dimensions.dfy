/** The dimension list the assessment page keeps in its state, and the pure updates its handlers apply. */
module Dimensions {
  import opened Results
  import opened Seqs
  import opened Text

  /** A life dimension: its id, its name, a help text, a rating and three free-text notes. */
  datatype Dimension = Dimension(id: string, name: string, description: string, rating: int, notes: seq<string>)

  /** Why the store refused a change. */
  datatype StoreError = BlankName | DuplicateName | UnknownId | LastDimension

  const NoteCount: nat := 3
  const DefaultRating: int := 5
  const MinRating: int := 1
  const MaxRating: int := 10

  const EmptyNotes: seq<string> := ["", "", ""]

  /** The ids, names and help texts of the eight default dimensions, in order. */
  const DefaultIds: seq<string> := ["1", "2", "3", "4", "5", "6", "7", "8"]
  const DefaultNames: seq<string> := ["身体健康", "情绪健康", "心智成长", "职业发展", "财务状况", "亲密关系", "社交友谊", "精神价值"]

  function DefaultDescription(k: int): string {
    match k
    case 1 => "指身体的健康状况，包括体能、营养、睡眠质量、疾病状况等方面"
    case 2 => "指情绪的稳定程度，包括压力管理能力、情绪调节能力、幸福感等方面"
    case 3 => "指知识学习、技能提升和认知能力的发展，包括学习习惯、思维方式等"
    case 4 => "指职业生涯的发展状况，包括工作满意度、职业规划、晋升空间等"
    case 5 => "指个人财务的健康程度，包括收入水平、储蓄习惯、投资规划等"
    case 6 => "指与伴侣、家人之间的关系质量，包括沟通状况、情感支持等"
    case 7 => "指与朋友、同事等社会关系的状况，包括社交圈大小、人际关系质量等"
    case 8 => "指个人的价值观、信仰和人生意义感，包括生活目标、理想追求等"
    case _ => ""
  }

  /** The eight dimensions every assessment starts from. */
  function Defaults(): (r: seq<Dimension>)
    ensures |r| == 8
  {
    seq(8, i requires 0 <= i < 8 => Dimension(DefaultIds[i], DefaultNames[i], DefaultDescription(i + 1), DefaultRating, EmptyNotes))
  }

  function Names(dims: seq<Dimension>): (r: seq<string>)
    ensures |r| == |dims|
    ensures forall i :: 0 <= i < |dims| ==> r[i] == dims[i].name
  {
    Map(dims, (d: Dimension) => d.name)
  }

  predicate HasId(dims: seq<Dimension>, id: string) {
    exists i :: 0 <= i < |dims| && dims[i].id == id
  }

  predicate DistinctIds(dims: seq<Dimension>) {
    forall i, j :: 0 <= i < j < |dims| ==> dims[i].id != dims[j].id
  }

  predicate DistinctNames(dims: seq<Dimension>) {
    forall i, j :: 0 <= i < j < |dims| ==> dims[i].name != dims[j].name
  }

  /** A dimension as the page edits it: a rating the slider can produce and exactly three notes. */
  predicate WellFormedDimension(d: Dimension) {
    MinRating <= d.rating <= MaxRating && |d.notes| == NoteCount
  }

  /** The store invariant: never empty, ids and names distinct, every entry well formed. */
  predicate WellFormed(dims: seq<Dimension>) {
    && |dims| >= 1
    && DistinctIds(dims)
    && DistinctNames(dims)
    && forall i :: 0 <= i < |dims| ==> WellFormedDimension(dims[i])
  }

  /** The defaults satisfy the store invariant, carry the default ids and names in order,
      and each starts at rating 5 with three empty notes. */
  lemma DefaultsWellFormed()
    ensures WellFormed(Defaults())
    ensures Names(Defaults()) == DefaultNames
    ensures forall i :: 0 <= i < |Defaults()| ==>
      && Defaults()[i].id == DefaultIds[i]
      && Defaults()[i].rating == DefaultRating
      && Defaults()[i].notes == EmptyNotes
  {
    DefaultsNamed();
    DefaultNamesDistinct();
    DefaultIdsDistinct();
    DefaultEntriesWellFormed();
  }

  lemma DefaultsNamed()
    ensures Names(Defaults()) == DefaultNames
  {
  }

  lemma DefaultNamesDistinct()
    ensures forall i, j :: 0 <= i < j < |DefaultNames| ==> DefaultNames[i] != DefaultNames[j]
  {
  }

  lemma DefaultIdsDistinct()
    ensures DistinctIds(Defaults())
  {
    assert forall i, j :: 0 <= i < j < |DefaultIds| ==> DefaultIds[i] != DefaultIds[j];
  }

  lemma DefaultEntriesWellFormed()
    ensures forall i :: 0 <= i < |Defaults()| ==> WellFormedDimension(Defaults()[i])
  {
  }

  /** The entry `addDimension` appends for an accepted name. */
  function NewDimension(id: string, name: string): (d: Dimension)
    ensures WellFormedDimension(d)
  {
    Dimension(id, name, "", DefaultRating, EmptyNotes)
  }

  /**
   * `addDimension`: the input is trimmed; a blank or already present name is refused,
   * anything else is appended as a fresh dimension.
   */
  function Add(dims: seq<Dimension>, input: string, freshId: string): (r: Result<seq<Dimension>, StoreError>)
    ensures r == Err(BlankName) <==> AllWhitespace(input)
    ensures r == Err(DuplicateName) <==> !AllWhitespace(input) && Trim(input) in Names(dims)
    ensures r.Ok? <==> !AllWhitespace(input) && Trim(input) !in Names(dims)
    ensures r.Ok? ==> && |r.value| == |dims| + 1
                      && r.value[..|dims|] == dims
                      && r.value[|dims|] == Dimension(freshId, Trim(input), "", DefaultRating, ["", "", ""])
  {
    var name := Trim(input);
    if name == [] then Err(BlankName)
    else if name in Names(dims) then Err(DuplicateName)
    else Ok(dims + [NewDimension(freshId, name)])
  }

  /** The stored name is already its own trim, so the duplicate check compares trimmed with trimmed. */
  lemma AddedNameIsTrimmed(dims: seq<Dimension>, input: string, freshId: string)
    ensures var r := Add(dims, input, freshId);
      r.Ok? ==> Trim(r.value[|dims|].name) == r.value[|dims|].name
  {
    TrimIdempotent(input);
  }

  /** Once a name is added, any input that trims to it is refused as a duplicate. */
  lemma AddAgainRefused(dims: seq<Dimension>, input: string, again: string, id1: string, id2: string)
    requires Add(dims, input, id1).Ok?
    requires Trim(again) == Trim(input)
    ensures Add(Add(dims, input, id1).value, again, id2) == Err(DuplicateName)
  {
    var s := Add(dims, input, id1).value;
    assert Names(s)[|dims|] == s[|dims|].name;
  }

  /** An accepted add keeps the store invariant, given an id not already in use. */
  lemma AddKeepsWellFormed(dims: seq<Dimension>, input: string, freshId: string)
    requires WellFormed(dims)
    requires !HasId(dims, freshId)
    ensures Add(dims, input, freshId).Ok? ==> WellFormed(Add(dims, input, freshId).value)
  {
    var r := Add(dims, input, freshId);
    if r.Ok? {
      var s := r.value;
      forall i, j | 0 <= i < j < |s| ensures s[i].name != s[j].name && s[i].id != s[j].id {
        assert s[i] == dims[i];
        if j == |dims| {
          assert Names(dims)[i] == dims[i].name;
        } else {
          assert s[j] == dims[j];
        }
      }
    }
  }

  /** `dimensions.filter(dim => dim.id !== id)`. */
  function WithoutId(dims: seq<Dimension>, id: string): (r: seq<Dimension>)
    ensures forall i :: 0 <= i < |r| ==> r[i].id != id && r[i] in dims
  {
    var keep := (d: Dimension) => d.id != id;
    FilterMembership(dims, keep);
    Filter(dims, keep)
  }

  /**
   * `removeDimension`: an unknown id is ignored, the only remaining dimension is kept,
   * otherwise every entry with that id is dropped.
   */
  function Remove(dims: seq<Dimension>, id: string): (r: Result<seq<Dimension>, StoreError>)
    ensures r == Err(UnknownId) <==> !HasId(dims, id)
    ensures r == Err(LastDimension) <==> HasId(dims, id) && |dims| <= 1
    ensures r.Ok? ==> r.value == WithoutId(dims, id) && !HasId(r.value, id)
  {
    if !HasId(dims, id) then Err(UnknownId)
    else if |dims| <= 1 then Err(LastDimension)
    else Ok(WithoutId(dims, id))
  }

  /**
   * With distinct ids, removing the id found at index `k` drops exactly that entry and keeps
   * the others in order.
   */
  lemma RemoveDropsOne(dims: seq<Dimension>, id: string, k: nat)
    requires DistinctIds(dims)
    requires k < |dims| && dims[k].id == id
    ensures WithoutId(dims, id) == dims[..k] + dims[k + 1..]
  {
    FilterDropsOne(dims, (d: Dimension) => d.id != id, k);
  }

  /** An accepted remove keeps the store invariant; in particular the list never becomes empty. */
  lemma RemoveKeepsWellFormed(dims: seq<Dimension>, id: string)
    requires WellFormed(dims)
    ensures Remove(dims, id).Ok? ==> WellFormed(Remove(dims, id).value) && |Remove(dims, id).value| == |dims| - 1
  {
    if Remove(dims, id).Ok? {
      var k :| 0 <= k < |dims| && dims[k].id == id;
      RemoveDropsOne(dims, id, k);
      DeleteKeepsWellFormed(dims, k);
    }
  }

  /** Deleting one entry from a list of at least two keeps the store invariant. */
  lemma DeleteKeepsWellFormed(dims: seq<Dimension>, k: nat)
    requires WellFormed(dims) && |dims| >= 2 && k < |dims|
    ensures WellFormed(dims[..k] + dims[k + 1..])
  {
    var s := dims[..k] + dims[k + 1..];
    assert forall i :: 0 <= i < |s| ==> s[i] == dims[if i < k then i else i + 1];
  }

  /** Two entries agree everywhere except possibly in their ratings. */
  predicate SameButRating(d: Dimension, e: Dimension) {
    d.id == e.id && d.name == e.name && d.description == e.description && d.notes == e.notes
  }

  /** `handleRatingChange`: every entry with the id gets the new rating; nothing else changes. */
  function SetRating(dims: seq<Dimension>, id: string, value: int): (r: seq<Dimension>)
    ensures |r| == |dims|
    ensures forall i :: 0 <= i < |dims| ==> SameButRating(r[i], dims[i])
    ensures forall i :: 0 <= i < |dims| ==> r[i].rating == if dims[i].id == id then value else dims[i].rating
  {
    Map(dims, (d: Dimension) => if d.id == id then d.(rating := value) else d)
  }

  /** A rating the slider can produce keeps the store invariant. */
  lemma SetRatingKeepsWellFormed(dims: seq<Dimension>, id: string, value: int)
    requires WellFormed(dims)
    requires MinRating <= value <= MaxRating
    ensures WellFormed(SetRating(dims, id, value))
  {
  }

  /** Two entries agree everywhere except possibly in note `index`. */
  predicate SameButNote(d: Dimension, e: Dimension, index: nat) {
    && d.id == e.id && d.name == e.name && d.description == e.description && d.rating == e.rating
    && |d.notes| == |e.notes|
    && forall n :: 0 <= n < |d.notes| && n != index ==> d.notes[n] == e.notes[n]
  }

  /** `handleDescriptionChange`: note `index` of every entry with the id becomes `text`; nothing else changes. */
  function SetNote(dims: seq<Dimension>, id: string, index: nat, text: string): (r: seq<Dimension>)
    requires forall i :: 0 <= i < |dims| && dims[i].id == id ==> index < |dims[i].notes|
    ensures |r| == |dims|
    ensures forall i :: 0 <= i < |dims| ==> SameButNote(r[i], dims[i], index)
    ensures forall i :: 0 <= i < |dims| && dims[i].id == id ==> index < |r[i].notes| && r[i].notes[index] == text
    ensures forall i :: 0 <= i < |dims| && dims[i].id != id ==> r[i] == dims[i]
  {
    seq(|dims|, i requires 0 <= i < |dims| =>
      if dims[i].id == id then dims[i].(notes := dims[i].notes[index := text]) else dims[i])
  }

  lemma SetNoteKeepsWellFormed(dims: seq<Dimension>, id: string, index: nat, text: string)
    requires WellFormed(dims)
    requires index < NoteCount
    ensures WellFormed(SetNote(dims, id, index, text))
  {
  }
}
