/**
 * The manual-entry form (`SalaryForm`): it holds the typed text and, on
 * submit, either rejects it or hands the number to its `onSubmit` callback.
 */
module SalaryForm {
  import opened Wrappers

  /**
   * The submit guard: text that reads as a number greater than zero is
   * accepted with that number; `NaN`, zero and negative numbers are rejected.
   */
  function Validate(text: string, parse: string -> Option<real>): (r: Option<real>)
    ensures r.Some? <==> parse(text).Some? && parse(text).value > 0.0
    ensures r.Some? ==> r == parse(text) && r.value > 0.0
  {
    match parse(text)
    case None => None
    case Some(n) => if n <= 0.0 then None else Some(n)
  }

  class Form {
    /** The text in the amount field (`salary` state). */
    var salary: string

    constructor ()
      ensures salary == ""
    {
      salary := "";
    }

    /** The field's `onChange`: the typed text replaces the state. */
    method SetSalary(text: string)
      modifies this
      ensures salary == text
    {
      salary := text;
    }

    /**
     * `handleSubmit`. The returned sequence lists the values passed to
     * `onSubmit`, in call order: on rejection it is empty and the text is
     * kept; on acceptance it holds the parsed value once and the text is cleared.
     */
    method HandleSubmit(parse: string -> Option<real>) returns (submitted: seq<real>)
      modifies this
      ensures parse(old(salary)).None? || parse(old(salary)).value <= 0.0 ==>
                submitted == [] && salary == old(salary)
      ensures parse(old(salary)).Some? && parse(old(salary)).value > 0.0 ==>
                submitted == [parse(old(salary)).value] && salary == ""
      ensures forall k :: 0 <= k < |submitted| ==> submitted[k] > 0.0
    {
      var numSalary := Validate(salary, parse);
      if numSalary.None? {
        return [];
      }
      submitted := [numSalary.value];
      salary := "";
    }
  }
}
