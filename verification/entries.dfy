/** The `Entry` record of src/models/entry.rs and its in-memory storage stub.
    Like the stack stub, every operation is a constant function of its
    arguments. */
module Entries {
  import opened Wrappers
  import opened RustInts

  /** An item of a stack; `stackId` is a lookup key for the owning stack. */
  datatype Entry = Entry(id: u32, stackId: u32, content: string)

  /** The number of entries the stub provider returns for every stack. */
  const STUB_SIZE: nat := 4

  /* The fixed texts of the four stub entries. */
  const CONTENT_1: string :=
    "Lorem ipsum dolor sit amet, consectetur adipiscing elit."

  const CONTENT_2: string :=
    "Lorem ipsum dolor sit amet, consectetur adipiscing elit. Nulla id imperdiet dolor. Proin a dolor sit amet erat viverra condimentum. Praesent maximus efficitur ante, a cursus dui suscipit id."

  const CONTENT_3: string :=
    "Quisque et mattis ex. Phasellus dignissim dignissim congue. Nam nec maximus elit, vitae rutrum leo. Nullam ultrices lobortis leo, in ultricies justo viverra vulputate. Nulla non accumsan lectus. Mauris ac sapien auctor, posuere orci nec, maximus quam. In commodo, diam id tristique pellentesque, mauris justo semper nisl, facilisis venenatis enim ligula nec eros. Suspendisse potenti. Nunc id condimentum magna. Etiam blandit eleifend neque ac posuere. Maecenas magna metus, sodales vitae lorem nec, facilisis consectetur purus. Sed mollis vel enim at imperdiet. Maecenas nulla velit, iaculis sed pretium ultricies, auctor sit amet orci."

  const CONTENT_4: string :=
    "Duis aute irure dolor."

  /** `Entry::save`: accepts any entry and reports success. */
  function Save(model: Entry): (r: Result<Unit, Report>)
    ensures r.Success?
  {
    Success(Unit)
  }

  /** `Entry::update(&mut self)`: reports success and leaves `self` as it was. */
  function Update(self: Entry): (r: (Entry, Result<Unit, Report>))
    ensures r.0 == self && r.1.Success?
  {
    (self, Success(Unit))
  }

  /** `Entry::delete`: reports success. */
  function Delete(self: Entry): (r: Result<Unit, Report>)
    ensures r.Success?
  {
    Success(Unit)
  }

  /** `Entry::get_all(id)`: four fixed entries, each stamped with the
      requested stack id. */
  function GetAll(stackId: u32): (r: seq<Entry>)
    ensures |r| == STUB_SIZE
    ensures forall i :: 0 <= i < |r| ==> r[i].stackId == stackId
    ensures forall i :: 0 <= i < |r| ==> r[i].id == i + 1
  {
    [ Entry(1, stackId, CONTENT_1),
      Entry(2, stackId, CONTENT_2),
      Entry(3, stackId, CONTENT_3),
      Entry(4, stackId, CONTENT_4) ]
  }

  /** `Entry::get_by_id`: never finds anything. */
  function GetById(id: u32): (r: Option<Result<Entry, Report>>)
    ensures r == None
  {
    None
  }

  /** Every entry returned for a stack belongs to that stack. */
  lemma GetAllBelongsToStack(stackId: u32, e: Entry)
    requires e in GetAll(stackId)
    ensures e.stackId == stackId
  {
  }

  /** No two entries returned for one stack share an id. */
  lemma GetAllIdsDistinct(stackId: u32)
    ensures forall i, j :: 0 <= i < j < |GetAll(stackId)| ==>
              GetAll(stackId)[i].id != GetAll(stackId)[j].id
  {
  }

  /** The stub's answer does not depend on the stack asked for, except for
      the stamped `stackId`: re-stamping one stack's entries gives another's. */
  lemma GetAllIndependentOfStack(a: u32, b: u32)
    ensures |GetAll(a)| == |GetAll(b)|
    ensures forall i :: 0 <= i < |GetAll(a)| ==>
              GetAll(a)[i].(stackId := b) == GetAll(b)[i]
  {
  }
}
