/** The registration form's Yup schema. Yup's email pattern is the
    parameter `isEmail`. */
module RegisterSchema {

  datatype RegisterValues = RegisterValues(
    name: string,
    email: string,
    password: string,
    confirmPassword: string)

  const MinPasswordLength := 6

  /** `string().required()`: Yup rejects the empty string. */
  predicate Required(s: string) {
    s != ""
  }

  /** Whether the form passes the schema. `confirmPassword` must be one of
      the password and null, and also be present, so it must equal the
      password. */
  function Validate(v: RegisterValues, isEmail: string -> bool): (ok: bool)
    ensures ok <==> && v.name != "" && v.email != "" && isEmail(v.email)
                    && |v.password| >= 6 && v.confirmPassword == v.password
  {
    && Required(v.name)
    && Required(v.email) && isEmail(v.email)
    && Required(v.password) && |v.password| >= MinPasswordLength
    && Required(v.confirmPassword) && v.confirmPassword in [v.password]
  }

  /** Requiring the confirmation adds nothing to requiring that it matches a
      password of six or more characters: a form that matches passes the
      confirmation rules, and a form with a mismatch fails. */
  lemma ConfirmationOnlyMatchMatters(v: RegisterValues, isEmail: string -> bool)
    ensures Validate(v, isEmail) <==> && Validate(v.(confirmPassword := v.password), isEmail)
                                      && v.confirmPassword == v.password
  {
  }
}
