/**
  Brazilian document validators and formatters of the forms service, and the
  client-side field checks built on them: CPF (individual taxpayer number,
  11 digits, two mod-11 check digits), CNPJ (company number, 14 digits, two
  weighted mod-11 check digits) and CEP (postal code, 8 digits).
 */
module Forms {
  import opened StringUtil
  import opened Options
  import EmailShape

  // ---------------------------------------------------------------------------
  // Check digits
  // ---------------------------------------------------------------------------

  /** Sum of `d[i] * w[i]` over the first |w| digits of `d`. */
  function WeightedSum(d: string, w: seq<nat>): nat
    requires |w| <= |d| && AllDigits(d)
  {
    WeightedSumFrom(d, w, 0)
  }

  function WeightedSumFrom(d: string, w: seq<nat>, i: nat): nat
    requires |w| <= |d| && AllDigits(d) && i <= |w|
    decreases |w| - i
  {
    if i == |w| then 0 else DigitValue(d[i]) * w[i] + WeightedSumFrom(d, w, i + 1)
  }

  /** `11 - (sum % 11)`, replaced by 0 when it is 10 or more. */
  function CheckDigit(sum: nat): (r: nat)
    ensures r <= 9
  {
    var d := 11 - sum % 11;
    if d >= 10 then 0 else d
  }

  /**
    The textbook statement of the mod-11 rule, `(10 * sum mod 11) mod 10`,
    gives the same digit as the two-step computation of the source.
   */
  lemma CheckDigitReference(sum: nat)
    ensures CheckDigit(sum) == (10 * sum % 11) % 10
  {
    var r := sum % 11;
    assert sum == 11 * (sum / 11) + r;
    assert 10 * sum == 11 * (10 * (sum / 11) + r) - r;
    if r == 0 {
      assert 10 * sum % 11 == 0;
    } else {
      assert 10 * sum == 11 * (10 * (sum / 11) + r - 1) + (11 - r);
      assert 10 * sum % 11 == 11 - r;
    }
  }

  /** The weights of the two CPF check digits. */
  const CpfWeights1: seq<nat> := [10, 9, 8, 7, 6, 5, 4, 3, 2]
  const CpfWeights2: seq<nat> := [11, 10, 9, 8, 7, 6, 5, 4, 3, 2]

  /** The CPF weights descend to 2 at the digit just before the one they check. */
  lemma CpfWeightsDescend()
    ensures forall i :: 0 <= i < 9 ==> CpfWeights1[i] == 10 - i
    ensures forall i :: 0 <= i < 10 ==> CpfWeights2[i] == 11 - i
  {
  }

  const CnpjWeights1: seq<nat> := [5, 4, 3, 2, 9, 8, 7, 6, 5, 4, 3, 2]
  const CnpjWeights2: seq<nat> := [6, 5, 4, 3, 2, 9, 8, 7, 6, 5, 4, 3, 2]

  /**
    The CNPJ weight tables follow the usual rule: counted from the right, the
    weights run 2, 3, ..., 9 and then start again at 2.
   */
  lemma CnpjWeightsCycle()
    ensures forall i :: 0 <= i < 12 ==> CnpjWeights1[i] == 2 + (11 - i) % 8
    ensures forall i :: 0 <= i < 13 ==> CnpjWeights2[i] == 2 + (12 - i) % 8
  {
  }

  /** The regex `^(\d)\1{n-1}$` on an all-digit string: one digit repeated. */
  predicate AllSame(d: string) {
    forall i :: 0 <= i < |d| ==> d[i] == d[0]
  }

  // ---------------------------------------------------------------------------
  // CPF
  // ---------------------------------------------------------------------------

  /** What it takes for a string of digits to be a valid CPF. */
  predicate CpfDigitsValid(d: string)
  {
    && |d| == 11 && AllDigits(d) && !AllSame(d)
    && DigitValue(d[9]) == (10 * WeightedSum(d, CpfWeights1) % 11) % 10
    && DigitValue(d[10]) == (10 * WeightedSum(d, CpfWeights2) % 11) % 10
  }

  /** `validateCPF`: strip the mask, then check length, repetition and both check digits. */
  function ValidateCPF(cpf: string): (ok: bool)
    ensures ok ==> |DigitsOnly(cpf)| == 11
    ensures ok ==> !AllSame(DigitsOnly(cpf))
  {
    if cpf == "" then false
    else
      var d := DigitsOnly(cpf);
      if |d| != 11 then false
      else if AllSame(d) then false
      else if DigitValue(d[9]) != CheckDigit(WeightedSum(d, CpfWeights1)) then false
      else DigitValue(d[10]) == CheckDigit(WeightedSum(d, CpfWeights2))
  }

  /** A CPF is accepted exactly when its digits satisfy the textbook mod-11 rule. */
  lemma ValidateCpfSpec(cpf: string)
    ensures ValidateCPF(cpf) <==> CpfDigitsValid(DigitsOnly(cpf))
  {
    var d := DigitsOnly(cpf);
    if |d| == 11 {
      CheckDigitReference(WeightedSum(d, CpfWeights1));
      CheckDigitReference(WeightedSum(d, CpfWeights2));
    }
  }

  // ---------------------------------------------------------------------------
  // CNPJ
  // ---------------------------------------------------------------------------

  predicate CnpjDigitsValid(d: string)
  {
    && |d| == 14 && AllDigits(d) && !AllSame(d)
    && DigitValue(d[12]) == (10 * WeightedSum(d, CnpjWeights1) % 11) % 10
    && DigitValue(d[13]) == (10 * WeightedSum(d, CnpjWeights2) % 11) % 10
  }

  /** `validateCNPJ`: 14 digits, not all equal, both weighted check digits. */
  function ValidateCNPJ(cnpj: string): (ok: bool)
    ensures ok ==> |DigitsOnly(cnpj)| == 14
    ensures ok ==> !AllSame(DigitsOnly(cnpj))
  {
    if cnpj == "" then false
    else
      var d := DigitsOnly(cnpj);
      if |d| != 14 then false
      else if AllSame(d) then false
      else if DigitValue(d[12]) != CheckDigit(WeightedSum(d, CnpjWeights1)) then false
      else DigitValue(d[13]) == CheckDigit(WeightedSum(d, CnpjWeights2))
  }

  lemma ValidateCnpjSpec(cnpj: string)
    ensures ValidateCNPJ(cnpj) <==> CnpjDigitsValid(DigitsOnly(cnpj))
  {
    var d := DigitsOnly(cnpj);
    if |d| == 14 {
      CheckDigitReference(WeightedSum(d, CnpjWeights1));
      CheckDigitReference(WeightedSum(d, CnpjWeights2));
    }
  }

  // ---------------------------------------------------------------------------
  // CEP
  // ---------------------------------------------------------------------------

  /** `validateCEP`: 8 digits after stripping the mask, not all equal. */
  function ValidateCEP(cep: string): (ok: bool)
    ensures ok <==> |DigitsOnly(cep)| == 8 && !AllSame(DigitsOnly(cep))
  {
    if cep == "" then false
    else
      var d := DigitsOnly(cep);
      if |d| != 8 then false
      else !AllSame(d)
  }

  // ---------------------------------------------------------------------------
  // Formatting
  // ---------------------------------------------------------------------------

  /** `formatCPF`: `ddd.ddd.ddd-dd` when there are 11 digits, else the input. */
  function FormatCPF(cpf: string): (r: string)
    ensures |DigitsOnly(cpf)| != 11 ==> r == cpf
    ensures |DigitsOnly(cpf)| == 11 ==> |r| == 14 && r[3] == '.' && r[7] == '.' && r[11] == '-'
    ensures DigitsOnly(r) == DigitsOnly(cpf)
  {
    var d := DigitsOnly(cpf);
    if |d| != 11 then cpf
    else
      var r := d[0..3] + "." + d[3..6] + "." + d[6..9] + "-" + d[9..];
      var x1 := d[0..3];
      var x2 := x1 + "." + d[3..6];
      var x3 := x2 + "." + d[6..9];
      DigitsOnlyOfDigits(x1);
      DigitsAfterSeparator(x1, '.', d[3..6]);
      DigitsAfterSeparator(x2, '.', d[6..9]);
      DigitsAfterSeparator(x3, '-', d[9..]);
      assert d == d[0..3] + d[3..6] + d[6..9] + d[9..];
      r
  }

  /** `formatCNPJ`: `dd.ddd.ddd/dddd-dd` when there are 14 digits, else the input. */
  function FormatCNPJ(cnpj: string): (r: string)
    ensures |DigitsOnly(cnpj)| != 14 ==> r == cnpj
    ensures |DigitsOnly(cnpj)| == 14 ==> |r| == 18 && r[2] == '.' && r[6] == '.' && r[10] == '/' && r[15] == '-'
    ensures DigitsOnly(r) == DigitsOnly(cnpj)
  {
    var d := DigitsOnly(cnpj);
    if |d| != 14 then cnpj
    else
      var r := d[0..2] + "." + d[2..5] + "." + d[5..8] + "/" + d[8..12] + "-" + d[12..];
      var x1 := d[0..2];
      var x2 := x1 + "." + d[2..5];
      var x3 := x2 + "." + d[5..8];
      var x4 := x3 + "/" + d[8..12];
      DigitsOnlyOfDigits(x1);
      DigitsAfterSeparator(x1, '.', d[2..5]);
      DigitsAfterSeparator(x2, '.', d[5..8]);
      DigitsAfterSeparator(x3, '/', d[8..12]);
      DigitsAfterSeparator(x4, '-', d[12..]);
      assert d == d[0..2] + d[2..5] + d[5..8] + d[8..12] + d[12..];
      r
  }

  /** `formatCEP`: `ddddd-ddd` when there are 8 digits, else the input. */
  function FormatCEP(cep: string): (r: string)
    ensures |DigitsOnly(cep)| != 8 ==> r == cep
    ensures |DigitsOnly(cep)| == 8 ==> |r| == 9 && r[5] == '-'
    ensures DigitsOnly(r) == DigitsOnly(cep)
  {
    var d := DigitsOnly(cep);
    if |d| != 8 then cep
    else
      DigitsOnlyOfDigits(d[0..5]);
      DigitsAfterSeparator(d[0..5], '-', d[5..]);
      assert d == d[0..5] + d[5..];
      d[0..5] + "-" + d[5..]
  }

  /** Formatting never changes whether a document validates. */
  lemma FormatPreservesValidity(s: string)
    ensures ValidateCPF(FormatCPF(s)) == ValidateCPF(s)
    ensures ValidateCNPJ(FormatCNPJ(s)) == ValidateCNPJ(s)
    ensures ValidateCEP(FormatCEP(s)) == ValidateCEP(s)
  {
    assert FormatCPF(s) == "" ==> s == "";
    assert FormatCNPJ(s) == "" ==> s == "";
  }

  /** Formatting an already formatted value changes nothing. */
  lemma FormatIdempotent(s: string)
    ensures FormatCPF(FormatCPF(s)) == FormatCPF(s)
    ensures FormatCNPJ(FormatCNPJ(s)) == FormatCNPJ(s)
    ensures FormatCEP(FormatCEP(s)) == FormatCEP(s)
  {
  }

  const ExampleCpf := "52998224725"

  lemma ExampleCpfSum1()
    ensures AllDigits(ExampleCpf) && WeightedSum(ExampleCpf, CpfWeights1) == 295
  {
    var d, w := ExampleCpf, CpfWeights1;
    assert AllDigits(d);
    assert WeightedSumFrom(d, w, 9) == 0;
    assert WeightedSumFrom(d, w, 8) == 14;
    assert WeightedSumFrom(d, w, 7) == 26;
    assert WeightedSumFrom(d, w, 6) == 34;
    assert WeightedSumFrom(d, w, 5) == 44;
    assert WeightedSumFrom(d, w, 4) == 92;
    assert WeightedSumFrom(d, w, 3) == 155;
    assert WeightedSumFrom(d, w, 2) == 227;
    assert WeightedSumFrom(d, w, 1) == 245;
  }

  lemma ExampleCpfSum2()
    ensures AllDigits(ExampleCpf) && WeightedSum(ExampleCpf, CpfWeights2) == 347
  {
    var d, w := ExampleCpf, CpfWeights2;
    assert AllDigits(d);
    assert WeightedSumFrom(d, w, 10) == 0;
    assert WeightedSumFrom(d, w, 9) == 4;
    assert WeightedSumFrom(d, w, 8) == 25;
    assert WeightedSumFrom(d, w, 7) == 41;
    assert WeightedSumFrom(d, w, 6) == 51;
    assert WeightedSumFrom(d, w, 5) == 63;
    assert WeightedSumFrom(d, w, 4) == 119;
    assert WeightedSumFrom(d, w, 3) == 191;
    assert WeightedSumFrom(d, w, 2) == 272;
    assert WeightedSumFrom(d, w, 1) == 292;
  }

  /** A known valid CPF is accepted, bare and masked. */
  lemma ValidCpfExample()
    ensures ValidateCPF(ExampleCpf)
    ensures ValidateCPF(FormatCPF(ExampleCpf))
  {
    var d := ExampleCpf;
    ExampleCpfSum1();
    ExampleCpfSum2();
    DigitsOnlyOfDigits(d);
    assert d[1] != d[0];
    assert DigitValue(d[9]) == 2 && DigitValue(d[10]) == 5;
    FormatPreservesValidity(d);
  }

  // ---------------------------------------------------------------------------
  // Field validation
  // ---------------------------------------------------------------------------

  datatype FieldType = Text | Email | Cpf | Cnpj | Cep | Phone | Select | Checkbox | Date

  /** A custom rule; `kind` is `min_length`, `max_length` or anything else (ignored). */
  datatype ValidationRule = ValidationRule(kind: string, value: int, message: string)

  /** A field value: `Null` for undefined/null, the other cases as JavaScript values. */
  datatype FormValue = Null | Str(s: string) | Num(n: int) | Bool(b: bool)

  datatype ConditionalLogic = ConditionalLogic(fieldId: string, operator: string, value: FormValue, default: bool)

  datatype FormField = FormField(
    id: string,
    labelText: string,
    fieldType: FieldType,
    required: bool,
    rules: seq<ValidationRule>,
    conditional: Option<ConditionalLogic>)

  /** `value.replace(/\s/g, '')`. */
  function RemoveSpaces(s: string): (r: string)
    ensures forall i :: 0 <= i < |r| ==> !IsJsSpace(r[i])
  {
    if |s| == 0 then ""
    else if IsJsSpace(s[0]) then RemoveSpaces(s[1..])
    else [s[0]] + RemoveSpaces(s[1..])
  }

  predicate NonZeroDigit(c: char) {
    '1' <= c <= '9'
  }

  /** `\d{4}-?\d{4}` matches all of `x`. */
  predicate PhoneLocalPart(x: string) {
    || (|x| == 8 && AllDigits(x))
    || (|x| == 9 && AllDigits(x[..4]) && x[4] == '-' && AllDigits(x[5..]))
  }

  /** `9?\d{4}-?\d{4}` matches all of `x`, trying both choices for the optional 9. */
  predicate PhoneNumberPart(x: string) {
    PhoneLocalPart(x) || (|x| > 0 && x[0] == '9' && PhoneLocalPart(x[1..]))
  }

  /**
    `^\(?[1-9]{2}\)?\s?9?\d{4}-?\d{4}$` on a string without white space. An
    optional `(` is taken when present, then two digits 1-9, then an optional
    `)`; `\s?` can only match empty once spaces are removed.
   */
  predicate MatchesPhoneRegex(t: string) {
    var a := if |t| > 0 && t[0] == '(' then 1 else 0;
    && |t| >= a + 2 && NonZeroDigit(t[a]) && NonZeroDigit(t[a + 1])
    && var b := if |t| > a + 2 && t[a + 2] == ')' then a + 3 else a + 2;
       PhoneNumberPart(t[b..])
  }

  /** The message a length rule reports: its own, or the default when empty. */
  function RuleMessage(rule: ValidationRule, default: string): string {
    if rule.message != "" then rule.message else default
  }

  /** A `min_length` rule fails on a shorter value, a `max_length` rule on a longer one; other kinds never fail. */
  predicate RuleFails(value: string, r: ValidationRule) {
    || (r.kind == "min_length" && |value| < r.value)
    || (r.kind == "max_length" && |value| > r.value)
  }

  /** The message a failing rule reports: its own, or the default for its kind. */
  function RuleText(r: ValidationRule): string {
    if r.kind == "min_length" then RuleMessage(r, "Mínimo " + IntToString(r.value) + " caracteres")
    else RuleMessage(r, "Máximo " + IntToString(r.value) + " caracteres")
  }

  /**
    The `min_length`/`max_length` errors, in rule order: one message for
    each failing rule, and nothing for a rule that holds.
   */
  function RuleErrors(value: string, rules: seq<ValidationRule>): (errs: seq<string>)
    ensures |errs| <= |rules|
    ensures errs == [] <==> forall k :: 0 <= k < |rules| ==> !RuleFails(value, rules[k])
    ensures forall k :: 0 <= k < |rules| && RuleFails(value, rules[k]) ==> RuleText(rules[k]) in errs
    ensures forall e :: e in errs ==> exists k :: 0 <= k < |rules| && RuleFails(value, rules[k]) && e == RuleText(rules[k])
  {
    if |rules| == 0 then []
    else
      var r := rules[0];
      var here :=
        if r.kind == "min_length" && |value| < r.value then
          [RuleMessage(r, "Mínimo " + IntToString(r.value) + " caracteres")]
        else if r.kind == "max_length" && |value| > r.value then
          [RuleMessage(r, "Máximo " + IntToString(r.value) + " caracteres")]
        else [];
      var rest := RuleErrors(value, rules[1..]);
      assert forall k :: 1 <= k < |rules| ==> rules[k] == rules[1..][k - 1];
      assert here == (if RuleFails(value, r) then [RuleText(r)] else []);
      here + rest
  }

  /** The type-specific error, if any, for a non-empty value. */
  function TypeErrors(t: FieldType, value: string): seq<string> {
    match t
    case Cpf => if !ValidateCPF(value) then ["CPF inválido"] else []
    case Cnpj => if !ValidateCNPJ(value) then ["CNPJ inválido"] else []
    case Cep => if !ValidateCEP(value) then ["CEP inválido"] else []
    case Email => if !EmailShape.MatchesEmailRegex(value) then ["Email inválido"] else []
    case Phone => if !MatchesPhoneRegex(RemoveSpaces(value)) then ["Telefone inválido"] else []
    case _ => []
  }

  /**
    `validateField`. The value is a string, `""` standing for every falsy
    value. An empty value yields the required-field error alone, or nothing.
   */
  function ValidateField(field: FormField, value: string): (errs: seq<string>)
    ensures value == "" && field.required ==> errs == [field.labelText + " é obrigatório"]
    ensures value == "" && !field.required ==> errs == []
    ensures value != "" ==> |errs| <= 1 + |field.rules|
    ensures value != "" && field.fieldType in {Text, Select, Checkbox, Date} ==> errs == RuleErrors(value, field.rules)
  {
    if field.required && value == "" then [field.labelText + " é obrigatório"]
    else if value == "" then []
    else TypeErrors(field.fieldType, value) + RuleErrors(value, field.rules)
  }

  /** For a CPF field without custom rules, a non-empty value passes iff it is a valid CPF. */
  lemma ValidateFieldCpf(field: FormField, value: string)
    requires field.fieldType == Cpf && field.rules == [] && value != ""
    ensures ValidateField(field, value) == [] <==> ValidateCPF(value)
    ensures ValidateField(field, value) != [] ==> ValidateField(field, value) == ["CPF inválido"]
  {
  }

  /** For an email field without custom rules, the value passes iff it has the `x@y.z` shape. */
  lemma ValidateFieldEmail(field: FormField, value: string)
    requires field.fieldType == Email && field.rules == [] && value != ""
    ensures ValidateField(field, value) == [] <==> EmailShape.MatchesEmailRegex(value)
  {
  }

  /** A CNPJ field: a non-empty value gets `CNPJ inválido` exactly when it is not a valid CNPJ, then the rule errors. */
  lemma ValidateFieldCnpj(field: FormField, value: string)
    requires field.fieldType == Cnpj && value != ""
    ensures ValidateField(field, value) == (if ValidateCNPJ(value) then [] else ["CNPJ inválido"]) + RuleErrors(value, field.rules)
    ensures field.rules == [] ==> (ValidateField(field, value) == [] <==> ValidateCNPJ(value))
  {
  }

  /** A CEP field: a non-empty value gets `CEP inválido` exactly when it is not a valid CEP, then the rule errors. */
  lemma ValidateFieldCep(field: FormField, value: string)
    requires field.fieldType == Cep && value != ""
    ensures ValidateField(field, value) == (if ValidateCEP(value) then [] else ["CEP inválido"]) + RuleErrors(value, field.rules)
    ensures field.rules == [] ==> (ValidateField(field, value) == [] <==> ValidateCEP(value))
  {
  }

  /**
    A phone field: a non-empty value gets `Telefone inválido` exactly when,
    with its white space removed, it does not match the phone pattern.
   */
  lemma ValidateFieldPhone(field: FormField, value: string)
    requires field.fieldType == Phone && value != ""
    ensures ValidateField(field, value) ==
              (if MatchesPhoneRegex(RemoveSpaces(value)) then [] else ["Telefone inválido"]) + RuleErrors(value, field.rules)
    ensures field.rules == [] ==> (ValidateField(field, value) == [] <==> MatchesPhoneRegex(RemoveSpaces(value)))
  {
  }

  /** Example phone numbers: mobile with mask, landline bare, and a bad area code. */
  lemma PhoneExamples()
    ensures MatchesPhoneRegex("(11)98765-4321")
    ensures MatchesPhoneRegex("1133334444")
    ensures !MatchesPhoneRegex("(01)3333-4444")
  {
    var t := "(11)98765-4321";
    var x := t[4..][1..];
    assert x == "8765-4321";
    assert AllDigits(x[..4]) by { assert x[..4] == "8765"; }
    assert AllDigits(x[5..]) by { assert x[5..] == "4321"; }
    var u := "1133334444";
    assert AllDigits(u[2..]) by { assert u[2..] == "33334444"; }
  }

  // ---------------------------------------------------------------------------
  // Conditional visibility
  // ---------------------------------------------------------------------------

  /** JavaScript's `String(v)`. */
  function ValueString(v: FormValue): string {
    match v
    case Null => "null"
    case Str(s) => s
    case Num(n) => IntToString(n)
    case Bool(b) => if b then "true" else "false"
  }

  /**
    `isFieldVisible`: visible without conditional logic; the rule's default
    when the watched value is missing or null, or when the operator is not
    one of `equals`, `not_equals`, `contains`.
   */
  function IsFieldVisible(field: FormField, formData: map<string, FormValue>): (visible: bool)
    ensures field.conditional.None? ==> visible
    ensures field.conditional.Some? && (field.conditional.value.fieldId !in formData
              || formData[field.conditional.value.fieldId] == Null)
            ==> visible == field.conditional.value.default
  {
    match field.conditional
    case None => true
    case Some(logic) =>
      if logic.fieldId !in formData || formData[logic.fieldId] == Null then logic.default
      else
        var fv := formData[logic.fieldId];
        if logic.operator == "equals" then fv == logic.value
        else if logic.operator == "not_equals" then fv != logic.value
        else if logic.operator == "contains" then Contains(ValueString(fv), ValueString(logic.value))
        else logic.default
  }

  /** `equals` and `not_equals` on the same watched value give opposite answers. */
  lemma EqualsNotEqualsComplementary(id: string, labelText: string, t: FieldType, req: bool,
                                     fieldId: string, v: FormValue, def: bool,
                                     formData: map<string, FormValue>)
    requires fieldId in formData && formData[fieldId] != Null
    ensures
      var eq := FormField(id, labelText, t, req, [], Some(ConditionalLogic(fieldId, "equals", v, def)));
      var ne := FormField(id, labelText, t, req, [], Some(ConditionalLogic(fieldId, "not_equals", v, def)));
      IsFieldVisible(eq, formData) == !IsFieldVisible(ne, formData)
  {
  }
}
