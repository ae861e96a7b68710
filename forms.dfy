/**
 * Values submitted through the HTML forms of the employee-records
 * application, and the two ways its handlers interpret a submitted field:
 * Python truthiness (the required-field test) and the salary conversion.
 */
module Forms {

  datatype Option<+T> = None | Some(value: T)

  /** A form field as `request.form.get` returns it: absent, or the submitted text. */
  type Field = Option<string>

  /**
   * Python truthiness of a field, as in `not name`: an absent field and the
   * empty string are false; every other string is true, a whitespace-only one
   * included, since no trimming is done.
   */
  predicate Present(f: Field)
  {
    f.Some? && f.value != ""
  }

  /**
   * The conversion of salary text to a number (Python's `float`), left
   * uninterpreted: None stands for the ValueError it raises.
   */
  type NumberParser = string -> Option<real>

  /** `float(salary_input) if salary_input else 0.0`: a falsy field is zero. */
  function ParseSalary(input: Field, parse: NumberParser): Option<real>
  {
    if Present(input) then parse(input.value) else Some(0.0)
  }
}
