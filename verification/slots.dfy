/** Choosing a free library slot from the driver's list of occupied ones. */
module Slots {
  import opened Wrappers

  /** `[i for i in range(n) if i not in templates][0]`, or None when that list is empty. */
  function FirstFree(templates: seq<int>, n: int): (slot: Option<int>)
    ensures slot.Some? ==>
      && 0 <= slot.value < n
      && slot.value !in templates
      && forall j :: 0 <= j < slot.value ==> j in templates
    ensures slot.None? <==> forall j :: 0 <= j < n ==> j in templates
  {
    FreeFrom(templates, n, 0)
  }

  /** The smallest index in `i..n-1` that `templates` does not list. */
  function FreeFrom(templates: seq<int>, n: int, i: int): (slot: Option<int>)
    ensures slot.Some? ==>
      && i <= slot.value < n
      && slot.value !in templates
      && forall j :: i <= j < slot.value ==> j in templates
    ensures slot.None? <==> forall j :: i <= j < n ==> j in templates
    decreases n - i
  {
    if i >= n then None
    else if i !in templates then Some(i)
    else FreeFrom(templates, n, i + 1)
  }
}
