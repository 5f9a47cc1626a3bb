/** The `Stack` record of src/models/stack.rs and its in-memory storage stub.
    Every storage operation is a constant function: there is no database
    behind it, so nothing a caller does can change what `GetAll` returns. */
module Stacks {
  import opened Wrappers
  import opened RustInts

  /** A named collection of entries; `count` is the number of entries the
      stack claims to hold. */
  datatype Stack = Stack(id: u32, name: string, count: u8)

  /** The number of stacks the stub provider returns. */
  const STUB_SIZE: nat := 4

  /** The ASCII digit for `d`. */
  function DigitChar(d: nat): (c: char)
    requires d < 10
    ensures '0' <= c <= '9'
    ensures c as int - '0' as int == d
  {
    (48 + d) as char
  }

  /** The display name the stub gives the stack with a one-digit id. */
  function StubName(id: nat): (n: string)
    requires id < 10
    ensures |n| == 7 && n[..6] == "Stack " && n[6] == DigitChar(id)
  {
    "Stack " + [DigitChar(id)]
  }

  /** `impl Clone for Stack`: a field-by-field copy. */
  function Clone(s: Stack): (c: Stack)
    ensures c.id == s.id && c.name == s.name && c.count == s.count
  {
    Stack(s.id, s.name, s.count)
  }

  /** `Stack::save`: accepts any stack and reports success. */
  function Save(model: Stack): (r: Result<Unit, Report>)
    ensures r.Success?
  {
    Success(Unit)
  }

  /** `Stack::update(&mut self)`: reports success and leaves `self` as it was. */
  function Update(self: Stack): (r: (Stack, Result<Unit, Report>))
    ensures r.0 == self && r.1.Success?
  {
    (self, Success(Unit))
  }

  /** `Stack::delete`: reports success. */
  function Delete(self: Stack): (r: Result<Unit, Report>)
    ensures r.Success?
  {
    Success(Unit)
  }

  /** `Stack::get_all`: the four fixed stacks "Stack 1" .. "Stack 4". */
  function GetAll(): (r: seq<Stack>)
    ensures |r| == STUB_SIZE
    ensures forall i :: 0 <= i < |r| ==> r[i].id == i + 1
    ensures forall i :: 0 <= i < |r| ==> r[i].name == StubName(i + 1)
  {
    [ Stack(1, "Stack 1", 1),
      Stack(2, "Stack 2", 5),
      Stack(3, "Stack 3", 3),
      Stack(4, "Stack 4", 8) ]
  }

  /** `Stack::get_by_id`: ignores the requested id and always yields the same
      placeholder stack, whose id is 0. */
  function GetById(id: u32): (r: Option<Result<Stack, Report>>)
    ensures r.Some? && r.value.Success?
    ensures r.value.value.id == 0 && r.value.value.name == "My Stack"
    ensures r.value.value.count == 5
  {
    Some(Success(Stack(0, "My Stack", 5)))
  }

  /** `GetById` ignores its argument: every request gets the same answer. */
  lemma GetByIdConstant(a: u32, b: u32)
    ensures GetById(a) == GetById(b)
  {
  }

  /** No two stacks of the stub share an id. */
  lemma GetAllIdsDistinct()
    ensures forall i, j :: 0 <= i < j < |GetAll()| ==> GetAll()[i].id != GetAll()[j].id
  {
  }

  /** The id in a stack's name is the stack's own id: the name can be read
      back into the id. */
  lemma GetAllNameCarriesId()
    ensures forall i :: 0 <= i < |GetAll()| ==>
              GetAll()[i].name[6] as int - '0' as int == GetAll()[i].id
  {
  }

  /** `GetById` is not a lookup: asking for any positive id returns a stack
      with a different id. */
  lemma GetByIdIgnoresRequest(id: u32)
    requires 0 < id
    ensures GetById(id).value.value.id != id
  {
  }
}
