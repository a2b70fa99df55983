/**
 * The form validation rules: the login, sign-up and product schemas as
 * lists of the issues zod reports, `formatZodError`, and the two
 * stand-alone checks for e-mail addresses and barcodes.
 *
 * Zod runs every check of a string or number field even after one has
 * failed, and runs an object's refinement even when a field has failed,
 * so a schema reports every failing check in declaration order. The
 * e-mail format of zod's `.email()` and the date parsing of `new Date`
 * are parameters.
 */
module Validation {
  import opened Wrappers
  import opened Text
  import opened ProductTypes

  // ------------------------------------------------------------- issues

  datatype Rule =
    | EmailRequired | EmailInvalid
    | PasswordTooShort | PasswordNoUpper | PasswordNoLower | PasswordNoDigit | PasswordsDiffer
    | NameRequired | NameTooLong | SessionRequired | ExpiryRequired | ExpiryInvalid
    | QuantityNotInteger | QuantityTooSmall | QuantityTooLarge
    | StatusInvalid(received: string)

  /** The message each failed rule carries. */
  function Message(rule: Rule): string {
    match rule
    case EmailRequired => "Email é obrigatório"
    case EmailInvalid => "Email inválido"
    case PasswordTooShort => "Senha deve ter pelo menos 6 caracteres"
    case PasswordNoUpper => "Senha deve conter pelo menos uma letra maiúscula"
    case PasswordNoLower => "Senha deve conter pelo menos uma letra minúscula"
    case PasswordNoDigit => "Senha deve conter pelo menos um número"
    case PasswordsDiffer => "As senhas não coincidem"
    case NameRequired => "Nome do produto é obrigatório"
    case NameTooLong => "Nome muito longo (máximo 200 caracteres)"
    case SessionRequired => "Sessão é obrigatória"
    case ExpiryRequired => "Data de validade é obrigatória"
    case ExpiryInvalid => "Data inválida"
    case QuantityNotInteger => "Quantidade deve ser um número inteiro"
    case QuantityTooSmall => "Quantidade deve ser pelo menos 1"
    case QuantityTooLarge => "Quantidade muito alta"
    case StatusInvalid(received) =>
      "Invalid enum value. Expected 'normal' | 'primeira_rebaixa' | 'segunda_rebaixa', received '" + received + "'"
  }

  /** A zod issue: the path of the field and the rule it broke. */
  datatype Issue = Issue(path: seq<string>, rule: Rule)

  /** The issue for `field` when `ok` fails, nothing otherwise. */
  function Check(ok: bool, field: string, rule: Rule): seq<Issue> {
    if ok then [] else [Issue([field], rule)]
  }

  // -------------------------------------------------------- login / sign-up

  datatype LoginForm = LoginForm(email: string, password: string)

  datatype SignUpForm = SignUpForm(email: string, password: string, confirmPassword: string)

  function EmailIssues(email: string, isEmail: string -> bool): seq<Issue> {
    Check(|email| >= 1, "email", EmailRequired) + Check(isEmail(email), "email", EmailInvalid)
  }

  /** `loginFormSchema`. */
  function LoginIssues(form: LoginForm, isEmail: string -> bool): seq<Issue> {
    EmailIssues(form.email, isEmail) + Check(|form.password| >= 6, "password", PasswordTooShort)
  }

  predicate HasUpper(s: string) {
    exists i :: 0 <= i < |s| && 'A' <= s[i] <= 'Z'
  }

  predicate HasLower(s: string) {
    exists i :: 0 <= i < |s| && 'a' <= s[i] <= 'z'
  }

  predicate HasDigitChar(s: string) {
    exists i :: 0 <= i < |s| && IsDigit(s[i])
  }

  /** The sign-up password rules: length, then one test per character class. */
  function PasswordIssues(password: string): seq<Issue> {
    Check(|password| >= 6, "password", PasswordTooShort)
    + Check(HasUpper(password), "password", PasswordNoUpper)
    + Check(HasLower(password), "password", PasswordNoLower)
    + Check(HasDigitChar(password), "password", PasswordNoDigit)
  }

  /** `signUpFormSchema`: the fields, then the refinement that the two passwords agree. */
  function SignUpIssues(form: SignUpForm, isEmail: string -> bool): seq<Issue> {
    EmailIssues(form.email, isEmail)
    + PasswordIssues(form.password)
    + Check(form.password == form.confirmPassword, "confirmPassword", PasswordsDiffer)
  }

  /**
   * Login needs a non-empty well-formed e-mail and a password of at least
   * six characters.
   */
  lemma LoginAccepts(form: LoginForm, isEmail: string -> bool)
    ensures LoginIssues(form, isEmail) == [] <==> form.email != "" && isEmail(form.email) && |form.password| >= 6
  {
  }

  /**
   * Sign-up accepts exactly a non-empty well-formed e-mail, a password of
   * at least six characters with an upper-case letter, a lower-case letter
   * and a digit, and a confirmation equal to the password; a differing
   * confirmation is reported on the `confirmPassword` path.
   */
  lemma SignUpAccepts(form: SignUpForm, isEmail: string -> bool)
    ensures SignUpIssues(form, isEmail) == [] <==>
      && form.email != "" && isEmail(form.email)
      && |form.password| >= 6 && HasUpper(form.password) && HasLower(form.password) && HasDigitChar(form.password)
      && form.password == form.confirmPassword
    ensures form.password != form.confirmPassword ==>
      SignUpIssues(form, isEmail)[|SignUpIssues(form, isEmail)| - 1] == Issue(["confirmPassword"], PasswordsDiffer)
  {
  }

  /** Whatever passes sign-up also passes login with the same e-mail and password. */
  lemma SignUpStricterThanLogin(form: SignUpForm, isEmail: string -> bool)
    requires SignUpIssues(form, isEmail) == []
    ensures LoginIssues(LoginForm(form.email, form.password), isEmail) == []
  {
    SignUpAccepts(form, isEmail);
  }

  // ---------------------------------------------------------- product

  /** The product form as the schema sees it; `quantity` is a JavaScript number. */
  datatype ProductInput = ProductInput(
    name: string, brand: string, barcode: Option<string>, expiryDate: string, quantity: real, status: string)

  predicate IsInteger(x: real) {
    x == x.Floor as real
  }

  function QuantityIssues(quantity: real): seq<Issue> {
    Check(IsInteger(quantity), "quantity", QuantityNotInteger)
    + Check(quantity >= 1.0, "quantity", QuantityTooSmall)
    + Check(quantity <= 9999.0, "quantity", QuantityTooLarge)
  }

  /** Every field but the name; the barcode may be absent, null or any text. */
  function OtherFieldIssues(input: ProductInput, parsesAsDate: string -> bool): seq<Issue> {
    Check(|input.brand| >= 1, "product_brand", SessionRequired)
    + Check(|input.expiryDate| >= 1, "expiry_date", ExpiryRequired)
    + Check(parsesAsDate(input.expiryDate), "expiry_date", ExpiryInvalid)
    + QuantityIssues(input.quantity)
    + Check(IsKnownStatus(input.status), "status", StatusInvalid(input.status))
  }

  function NameIssues(name: string): seq<Issue> {
    Check(|name| >= 1, "product_name", NameRequired) + Check(|name| <= 200, "product_name", NameTooLong)
  }

  /** `productFormSchema`. */
  function ProductIssues(input: ProductInput, parsesAsDate: string -> bool): seq<Issue> {
    NameIssues(input.name) + OtherFieldIssues(input, parsesAsDate)
  }

  function AsReal(n: int): real {
    n as real
  }

  /** The quantity passes exactly when it is a whole number from 1 to 9999. */
  lemma QuantityAccepts(quantity: real)
    ensures QuantityIssues(quantity) == [] <==> exists n: int :: 1 <= n <= 9999 && quantity == AsReal(n)
  {
    if QuantityIssues(quantity) == [] {
      var n := quantity.Floor;
      assert quantity == AsReal(n);
    }
  }

  /**
   * The product schema accepts exactly a name of 1 to 200 characters, a
   * non-empty session, a non-empty expiry date that parses, a whole
   * quantity from 1 to 9999 and one of the three statuses.
   */
  lemma ProductAccepts(input: ProductInput, parsesAsDate: string -> bool)
    ensures ProductIssues(input, parsesAsDate) == [] <==>
      && 1 <= |input.name| <= 200
      && input.brand != ""
      && input.expiryDate != "" && parsesAsDate(input.expiryDate)
      && IsInteger(input.quantity) && 1.0 <= input.quantity <= 9999.0
      && IsKnownStatus(input.status)
  {
  }

  // --------------------------------------------------------- quick mode

  const DefaultQuickName := "Produto sem nome"

  /** The quick-mode form: the name may be left undefined. */
  datatype QuickInput = QuickInput(
    name: Option<string>, brand: string, barcode: Option<string>, expiryDate: string, quantity: real, status: string)

  function WithName(input: QuickInput, name: string): ProductInput {
    ProductInput(name, input.brand, input.barcode, input.expiryDate, input.quantity, input.status)
  }

  /** `quickProductFormSchema`: the product schema without any rule on the name. */
  function QuickIssues(input: QuickInput, parsesAsDate: string -> bool): seq<Issue> {
    OtherFieldIssues(WithName(input, ""), parsesAsDate)
  }

  /** The name the quick schema yields: the given one, or the default when it is undefined. */
  function QuickName(name: Option<string>): string {
    name.GetOr(DefaultQuickName)
  }

  /**
   * Quick mode checks every other field as the full schema does and never
   * the name: any name, even an empty one, passes, and an undefined name
   * becomes the default, which the full schema would accept as well.
   */
  lemma QuickModeRelaxesName(input: QuickInput, parsesAsDate: string -> bool)
    ensures forall name :: 1 <= |name| <= 200 ==> QuickIssues(input, parsesAsDate) == ProductIssues(WithName(input, name), parsesAsDate)
    ensures input.name.None? ==> QuickName(input.name) == DefaultQuickName
    ensures input.name.Some? ==> QuickName(input.name) == input.name.value
    ensures QuickIssues(input, parsesAsDate) == ProductIssues(WithName(input, DefaultQuickName), parsesAsDate)
  {
    forall name | 1 <= |name| <= 200
      ensures QuickIssues(input, parsesAsDate) == ProductIssues(WithName(input, name), parsesAsDate)
    {
      assert NameIssues(name) == [];
    }
  }

  // --------------------------------------------------------- formatZodError

  function JoinPath(path: seq<string>): string {
    Join(path, '.')
  }

  /** The record after storing the issues in order: a later issue overwrites an earlier one on the same path. */
  function Formatted(issues: seq<Issue>): map<string, string> {
    if issues == [] then map[]
    else
      var last := issues[|issues| - 1];
      Formatted(issues[..|issues| - 1])[JoinPath(last.path) := Message(last.rule)]
  }

  /** `formatZodError`. */
  method FormatZodError(issues: seq<Issue>) returns (errors: map<string, string>)
    ensures errors == Formatted(issues)
  {
    errors := map[];
    for i := 0 to |issues|
      invariant errors == Formatted(issues[..i])
    {
      assert issues[..i + 1][..i] == issues[..i];
      var path := JoinPath(issues[i].path);
      errors := errors[path := Message(issues[i].rule)];
    }
    assert issues[..|issues|] == issues;
  }

  /** Issue `i` is the last one whose path joins to `key`. */
  ghost predicate IsLastFor(issues: seq<Issue>, key: string, i: nat) {
    && i < |issues|
    && JoinPath(issues[i].path) == key
    && forall j :: i < j < |issues| ==> JoinPath(issues[j].path) != key
  }

  /** The index of the last issue on the path `key`, if any. */
  function LastIssueFor(issues: seq<Issue>, key: string): (r: Option<nat>)
    ensures r.None? <==> forall i :: 0 <= i < |issues| ==> JoinPath(issues[i].path) != key
    ensures r.Some? ==> IsLastFor(issues, key, r.value)
  {
    if issues == [] then None
    else if JoinPath(issues[|issues| - 1].path) == key then Some(|issues| - 1)
    else
      var r := LastIssueFor(issues[..|issues| - 1], key);
      assert forall i :: 0 <= i < |issues| - 1 ==> issues[..|issues| - 1][i] == issues[i];
      r
  }

  /**
   * One entry per distinct joined path, and the entry holds the message of
   * the last issue on that path.
   */
  lemma {:induction false} FormattedLastWins(issues: seq<Issue>, key: string)
    ensures key in Formatted(issues) <==> LastIssueFor(issues, key).Some?
    ensures key in Formatted(issues) ==> Formatted(issues)[key] == Message(issues[LastIssueFor(issues, key).value].rule)
  {
    if issues != [] {
      var init := issues[..|issues| - 1];
      FormattedLastWins(init, key);
      if JoinPath(issues[|issues| - 1].path) != key && LastIssueFor(init, key).Some? {
        assert init[LastIssueFor(init, key).value] == issues[LastIssueFor(init, key).value];
      }
    }
  }

  /** A differing confirmation shows its own message under `confirmPassword`. */
  lemma MismatchShownOnConfirm(form: SignUpForm, isEmail: string -> bool)
    requires form.password != form.confirmPassword
    ensures Formatted(SignUpIssues(form, isEmail))["confirmPassword"] == Message(PasswordsDiffer)
  {
    var issues := SignUpIssues(form, isEmail);
    assert issues[|issues| - 1] == Issue(["confirmPassword"], PasswordsDiffer);
    assert JoinPath(["confirmPassword"]) == "confirmPassword";
  }

  /**
   * An empty e-mail breaks both e-mail rules; the record keeps the later
   * one, so the form shows "Email inválido" rather than "Email é obrigatório".
   */
  lemma EmptyEmailShowsInvalid(form: LoginForm, isEmail: string -> bool)
    requires form.email == "" && !isEmail("")
    ensures "email" in Formatted(LoginIssues(form, isEmail))
    ensures Formatted(LoginIssues(form, isEmail))["email"] == Message(EmailInvalid)
  {
    var issues := LoginIssues(form, isEmail);
    assert issues[1] == Issue(["email"], EmailInvalid);
    assert JoinPath(["email"]) == "email";
    assert JoinPath(["password"]) == "password";
    assert LastIssueFor(issues, "email") == Some(1);
    FormattedLastWins(issues, "email");
  }

  // ------------------------------------------------------- stand-alone checks

  predicate NoWhiteSpace(s: string) {
    forall i :: 0 <= i < |s| ==> !IsSpace(s[i])
  }

  /** `'.'` occurs with at least one character on each side. */
  predicate HasInnerDot(domain: string) {
    |domain| >= 3 && '.' in domain[1..|domain| - 1]
  }

  /** `isValidEmail`: `/^[^\s@]+@[^\s@]+\.[^\s@]+$/`, decided by locating the `'@'`. */
  predicate IsValidEmail(email: string) {
    match IndexOf(email, '@')
    case None => false
    case Some(at) => at > 0 && '@' !in email[at + 1..] && NoWhiteSpace(email) && HasInnerDot(email[at + 1..])
  }

  /**
   * The pattern read directly: the `'@'` at `at` and a `'.'` at `dot`
   * split the address into three non-empty parts, and no other character
   * is white space or `'@'`.
   */
  ghost predicate EmailSplit(email: string, at: int, dot: int) {
    && 0 < at && at + 1 < dot < |email| - 1
    && email[at] == '@' && email[dot] == '.'
    && forall i :: 0 <= i < |email| && i != at ==> !IsSpace(email[i]) && email[i] != '@'
  }

  /**
   * An address is valid exactly when it has no white space, a single
   * `'@'` after a non-empty local part, and a domain with a `'.'` that has
   * text on both sides.
   */
  lemma EmailValidIff(email: string)
    ensures IsValidEmail(email) <==> exists at, dot :: EmailSplit(email, at, dot)
  {
    if IsValidEmail(email) {
      var at := IndexOf(email, '@').value;
      var domain := email[at + 1..];
      var k :| 0 <= k < |domain[1..|domain| - 1]| && domain[1..|domain| - 1][k] == '.';
      var dot := at + 2 + k;
      assert email[dot] == '.';
      forall i | 0 <= i < |email| && i != at ensures !IsSpace(email[i]) && email[i] != '@' {
        if i < at {
          assert email[i] in email[..at];
        } else {
          assert email[i] == domain[i - at - 1];
        }
      }
      assert EmailSplit(email, at, dot);
    }
    if exists at, dot :: EmailSplit(email, at, dot) {
      var at, dot :| EmailSplit(email, at, dot);
      var found := IndexOf(email, '@');
      assert email[at] == '@';
      assert found.Some? && found.value == at by {
        var j := found.value;
        assert email[j] == '@';
      }
      var domain := email[at + 1..];
      assert '@' !in domain by {
        forall j | 0 <= j < |domain| ensures domain[j] != '@' {
          assert domain[j] == email[at + 1 + j];
        }
      }
      assert domain[1..|domain| - 1][dot - at - 2] == '.';
    }
  }

  /** `isValidBarcode`: after trimming, 8, 12, 13 or 14 ASCII digits. */
  predicate IsValidBarcode(barcode: string) {
    var code := Trim(barcode);
    AllDigits(code) && (|code| == 8 || 12 <= |code| <= 14)
  }

  /**
   * White space around a code is ignored: a code that neither starts nor
   * ends with white space is valid with any surrounding white space
   * exactly when it is 8, 12, 13 or 14 digits.
   */
  lemma BarcodeIgnoresSurroundingSpace(pre: string, code: string, post: string)
    requires forall i :: 0 <= i < |pre| ==> IsSpace(pre[i])
    requires forall i :: 0 <= i < |post| ==> IsSpace(post[i])
    requires code != [] && !IsSpace(code[0]) && !IsSpace(code[|code| - 1])
    ensures IsValidBarcode(pre + code + post) <==> AllDigits(code) && (|code| == 8 || 12 <= |code| <= 14)
  {
    TrimSurrounded(pre, code, post);
  }
}
