/**
 * `ErrorTranslator.translate`: the Arabic text shown for the error payload
 * of a failed request. An `errors` array answers by its first entry's
 * code; an `errors` object has every message under every field translated
 * by that field's substring rules and the results joined; otherwise a
 * string `message` is classified by substring, and `title` is the last
 * resort.
 */
module ErrorTranslator {
  import opened Wrappers
  import opened Seqs
  import opened Text

  const UnknownError: string := "حدث خطأ غير معروف"
  const InvalidCredentials: string := "البريد الإلكتروني أو كلمة المرور غير صحيحة"
  const UserNotFound: string := "المستخدم غير موجود"
  const AuthFallback: string := "حدث خطأ في المصادقة"
  const InvalidData: string := "بيانات غير صالحة"
  const UnexpectedError: string := "حدث خطأ غير متوقع"

  /** One entry of an `errors` array. */
  datatype ApiError = ApiError(code: string, description: Option<string>)

  /** The entries of an `errors` object, each a key and its message list, in `Object.keys` order. */
  type FieldErrors = seq<(string, seq<string>)>

  /** What `errors` holds: an array, an object of message lists, or anything else (absent included). */
  datatype Errors = NoErrors | ErrorList(list: seq<ApiError>) | ErrorFields(fields: FieldErrors)

  datatype ErrorData = ErrorData(errors: Errors, title: Option<string>, message: Option<string>)

  /** An object never repeats a key. */
  ghost predicate DistinctKeys(fields: FieldErrors) {
    forall i, j :: 0 <= i < j < |fields| ==> fields[i].0 != fields[j].0
  }

  /** `value || fallback`: a missing or empty string gives the fallback. */
  function OrElse(value: Option<string>, fallback: string): string {
    if value.Some? && value.value != "" then value.value else fallback
  }

  // ----- Substring rules -----

  /** `msg.includes(sub)`, or `msg.toLowerCase().includes(sub)`. */
  datatype Test = Includes(sub: string) | IncludesLower(sub: string)

  predicate Passes(test: Test, msg: string) {
    match test
    case Includes(sub) => Contains(msg, sub)
    case IncludesLower(sub) => Contains(Lower(msg), sub)
  }

  /** A rule's answer: a fixed text, or a text around the character count the message reports. */
  datatype Reply = Fixed(text: string) | EnteredLength(before: string, after: string)

  datatype Rule = Rule(test: Test, reply: Reply)

  /** The index of the first rule the message passes. */
  function FirstMatch(rules: seq<Rule>, msg: string): (r: Option<nat>)
    ensures r.Some? ==> r.value < |rules| && Passes(rules[r.value].test, msg)
    ensures r.Some? ==> forall j | 0 <= j < r.value :: !Passes(rules[j].test, msg)
    ensures r.None? ==> forall j | 0 <= j < |rules| :: !Passes(rules[j].test, msg)
    decreases |rules|
  {
    if rules == [] then None
    else if Passes(rules[0].test, msg) then Some(0)
    else
      match FirstMatch(rules[1..], msg)
      case None => None
      case Some(i) => Some(i + 1)
  }

  function ReplyText(reply: Reply, msg: string): string {
    match reply
    case Fixed(text) => text
    case EnteredLength(before, after) => before + EnteredChars(msg) + after
  }

  /**
   * An `if / else if / else push(msg)` chain: the first rule the message
   * passes gives the answer, whatever later rules it passes too; a message
   * that passes none is kept as it is.
   */
  function ApplyRules(rules: seq<Rule>, msg: string): (r: string)
    ensures (forall j | 0 <= j < |rules| :: !Passes(rules[j].test, msg)) ==> r == msg
    ensures forall i | 0 <= i < |rules| && Passes(rules[i].test, msg) && (forall j | 0 <= j < i :: !Passes(rules[j].test, msg)) ::
      r == ReplyText(rules[i].reply, msg)
  {
    FirstMatchIsFirst(rules, msg);
    match FirstMatch(rules, msg)
    case None => msg
    case Some(i) => ReplyText(rules[i].reply, msg)
  }

  /** Any rule that passes while every earlier one fails is the one `FirstMatch` finds. */
  lemma FirstMatchIsFirst(rules: seq<Rule>, msg: string)
    ensures forall i | 0 <= i < |rules| && Passes(rules[i].test, msg) && (forall j | 0 <= j < i :: !Passes(rules[j].test, msg)) ::
      FirstMatch(rules, msg) == Some(i)
  {
    forall i | 0 <= i < |rules| && Passes(rules[i].test, msg) && (forall j | 0 <= j < i :: !Passes(rules[j].test, msg))
      ensures FirstMatch(rules, msg) == Some(i)
    {
      var r := FirstMatch(rules, msg);
      assert r.Some?;
      assert !(r.value < i);
      assert !(i < r.value);
    }
  }

  /** When the first rule passes, it answers. */
  lemma FirstRuleDecides(rules: seq<Rule>, msg: string)
    requires rules != [] && Passes(rules[0].test, msg)
    ensures ApplyRules(rules, msg) == ReplyText(rules[0].reply, msg)
  {
  }

  // ----- The reported character count -----

  const EnteredPrefix: string := "You entered "
  const EnteredSuffix: string := " characters"

  /** The longest run of ASCII digits at the start of `s`. */
  function DigitRun(s: string): (d: string)
    ensures |d| <= |s| && d == s[..|d|]
    ensures forall i | 0 <= i < |d| :: IsAsciiDigit(d[i])
    ensures |d| < |s| ==> !IsAsciiDigit(s[|d|])
    decreases |s|
  {
    if s != [] && IsAsciiDigit(s[0]) then [s[0]] + DigitRun(s[1..]) else []
  }

  /** `/You entered (\d+) characters/` matches at the start of `s`. */
  predicate EnteredAt(s: string) {
    && StartsWith(s, EnteredPrefix)
    && var rest := s[|EnteredPrefix|..];
       var digits := DigitRun(rest);
       digits != [] && StartsWith(rest[|digits|..], EnteredSuffix)
  }

  /** `match ? match[1] : ""`: the digits of the leftmost match, or the empty string. */
  function EnteredChars(msg: string): (r: string)
    ensures forall i | 0 <= i < |r| :: IsAsciiDigit(r[i])
    decreases |msg|
  {
    if msg == [] then ""
    else if EnteredAt(msg) then DigitRun(msg[|EnteredPrefix|..])
    else EnteredChars(msg[1..])
  }

  lemma {:induction false} DigitRunStops(digits: string, tail: string)
    requires forall i | 0 <= i < |digits| :: IsAsciiDigit(digits[i])
    requires tail == [] || !IsAsciiDigit(tail[0])
    ensures DigitRun(digits + tail) == digits
    decreases |digits|
  {
    if digits == [] {
      assert digits + tail == tail;
    } else {
      assert (digits + tail)[0] == digits[0];
      assert (digits + tail)[1..] == digits[1..] + tail;
      DigitRunStops(digits[1..], tail);
    }
  }

  /** A message that starts with "You entered <n> characters" reports exactly the digits of n. */
  lemma EnteredCharsReadsCount(digits: string, rest: string)
    requires digits != [] && forall i | 0 <= i < |digits| :: IsAsciiDigit(digits[i])
    ensures EnteredChars(EnteredPrefix + digits + EnteredSuffix + rest) == digits
  {
    var s := EnteredPrefix + digits + EnteredSuffix + rest;
    assert s[..|EnteredPrefix|] == EnteredPrefix;
    assert s[|EnteredPrefix|..] == digits + (EnteredSuffix + rest);
    DigitRunStops(digits, EnteredSuffix + rest);
    assert (digits + (EnteredSuffix + rest))[|digits|..] == EnteredSuffix + rest;
    assert (EnteredSuffix + rest)[..|EnteredSuffix|] == EnteredSuffix;
    assert EnteredAt(s);
  }

  /** Text before the first capital Y cannot hold a match, so the search goes past it. */
  lemma {:induction false} EnteredCharsSkipsLead(lead: string, s: string)
    requires forall i | 0 <= i < |lead| :: lead[i] != 'Y'
    ensures EnteredChars(lead + s) == EnteredChars(s)
    decreases |lead|
  {
    if lead == [] {
      assert lead + s == s;
    } else {
      assert (lead + s)[0] == lead[0];
      assert !StartsWith(lead + s, EnteredPrefix) by {
        assert EnteredPrefix[0] == 'Y';
      }
      assert (lead + s)[1..] == lead[1..] + s;
      EnteredCharsSkipsLead(lead[1..], s);
    }
  }

  /** A count reported after text without a capital Y is the one read. */
  lemma EnteredCharsAfterLead(lead: string, digits: string, rest: string)
    requires forall i | 0 <= i < |lead| :: lead[i] != 'Y'
    requires digits != [] && forall i | 0 <= i < |digits| :: IsAsciiDigit(digits[i])
    ensures EnteredChars(lead + (EnteredPrefix + digits + EnteredSuffix + rest)) == digits
  {
    EnteredCharsSkipsLead(lead, EnteredPrefix + digits + EnteredSuffix + rest);
    EnteredCharsReadsCount(digits, rest);
  }

  /** Without the words "You entered " there is no count, and the inserted text is empty. */
  lemma {:induction false} NoMentionNoCount(msg: string)
    requires !Contains(msg, EnteredPrefix)
    ensures EnteredChars(msg) == ""
    decreases |msg|
  {
    if msg != [] {
      NoMentionNoCount(msg[1..]);
    }
  }

  // ----- The known fields -----

  datatype Field = FirstName | LastName | PhoneNumber | Email | Password | ConfirmPassword

  function Key(f: Field): string {
    match f
    case FirstName => "FirstName"
    case LastName => "LastName"
    case PhoneNumber => "PhoneNumber"
    case Email => "Email"
    case Password => "Password"
    case ConfirmPassword => "ConfirmPassword"
  }

  /** The keys the final `Object.keys` pass skips. */
  const KnownKeys: seq<string> := ["FirstName", "LastName", "PhoneNumber", "Email", "Password", "ConfirmPassword"]

  /** The length texts for the two name fields, around the reported count. */
  const FirstNameLengthBefore: string := "الاسم الأول يجب أن يكون بين 3 و 100 حرف. أدخلت "
  const FirstNameLengthAfter: string := " حرفاً."
  const LastNameLengthBefore: string := "الاسم الأخير يجب أن يكون بين 3 و 100 حرف. أدخلت "
  const LastNameLengthAfter: string := " حرفاً."

  /** Each known field's chain of tests, in the order the source tries them. */
  function Rules(f: Field): seq<Rule> {
    match f
    case FirstName => [
      Rule(Includes("must be between 3 and 100 characters"), EnteredLength(FirstNameLengthBefore, FirstNameLengthAfter)),
      Rule(Includes("required"), Fixed("الاسم الأول مطلوب"))]
    case LastName => [
      Rule(Includes("must be between 3 and 100 characters"), EnteredLength(LastNameLengthBefore, LastNameLengthAfter)),
      Rule(Includes("required"), Fixed("الاسم الأخير مطلوب"))]
    case PhoneNumber => [
      Rule(Includes("must start with 010, 011, 012, or 015"), Fixed("رقم الهاتف يجب أن يبدأ بـ 010، 011، 012، أو 015")),
      Rule(Includes("must be 11 digits long"), Fixed("رقم الهاتف يجب أن يكون 11 رقماً")),
      Rule(IncludesLower("already registered"), Fixed("رقم الهاتف هذا مسجل بالفعل")),
      Rule(Includes("required"), Fixed("رقم الهاتف مطلوب"))]
    case Email => [
      Rule(IncludesLower("already exists"), Fixed("البريد الإلكتروني مستخدم بالفعل")),
      Rule(IncludesLower("already registered"), Fixed("البريد الإلكتروني مستخدم بالفعل")),
      Rule(Includes("required"), Fixed("البريد الإلكتروني مطلوب")),
      Rule(Includes("valid email address"), Fixed("يرجى إدخال بريد إلكتروني صحيح"))]
    case Password => [
      Rule(Includes("at least 6 characters"), Fixed("كلمة المرور يجب أن تحتوي على الأقل 6 أحرف")),
      Rule(Includes("required"), Fixed("كلمة المرور مطلوبة")),
      Rule(Includes("uppercase letter"), Fixed("كلمة المرور يجب أن تحتوي على حرف كبير")),
      Rule(Includes("lowercase letter"), Fixed("كلمة المرور يجب أن تحتوي على حرف صغير")),
      Rule(Includes("digit"), Fixed("كلمة المرور يجب أن تحتوي على رقم")),
      Rule(Includes("non-alphanumeric character"), Fixed("كلمة المرور يجب أن تحتوي على رمز خاص"))]
    case ConfirmPassword => [
      Rule(Includes("match"), Fixed("كلمات المرور غير متطابقة"))]
  }

  function TranslateFieldMessage(f: Field, msg: string): string {
    ApplyRules(Rules(f), msg)
  }

  function Translator(f: Field): string -> string {
    (msg: string) => TranslateFieldMessage(f, msg)
  }

  /**
   * A first-name message with the length phrase gets the length text
   * around the count it reports (`EnteredCharsAfterLead` says which count
   * that is), whatever else it says.
   */
  lemma FirstNameLengthRule(msg: string)
    requires Contains(msg, "must be between 3 and 100 characters")
    ensures TranslateFieldMessage(FirstName, msg) == FirstNameLengthBefore + EnteredChars(msg) + FirstNameLengthAfter
  {
    var rules := Rules(FirstName);
    assert Passes(rules[0].test, msg);
    FirstRuleDecides(rules, msg);
  }

  /** The six-character rule is tried first: it decides even when the message also says "required" or names a letter class. */
  lemma PasswordLengthRuleFirst(msg: string)
    requires Contains(msg, "at least 6 characters")
    ensures TranslateFieldMessage(Password, msg) == "كلمة المرور يجب أن تحتوي على الأقل 6 أحرف"
  {
    FirstRuleDecides(Rules(Password), msg);
  }

  // ----- The object branch -----

  /** `errorData.errors[key]`: the message list under a key, if the key is present. */
  function Lookup(fields: FieldErrors, key: string): (r: Option<seq<string>>)
    ensures r.None? <==> forall i | 0 <= i < |fields| :: fields[i].0 != key
    ensures r.Some? ==> (key, r.value) in fields
    decreases |fields|
  {
    if fields == [] then None
    else if fields[|fields| - 1].0 == key then Some(fields[|fields| - 1].1)
    else Lookup(fields[..|fields| - 1], key)
  }

  /** In an object, the list under a key is exactly the one its entry holds. */
  lemma {:induction false} LookupFindsEntry(fields: FieldErrors, key: string, msgs: seq<string>)
    requires DistinctKeys(fields)
    ensures Lookup(fields, key) == Some(msgs) <==> (key, msgs) in fields
    decreases |fields|
  {
    if fields != [] {
      var n := |fields| - 1;
      var init := fields[..n];
      assert DistinctKeys(init);
      LookupFindsEntry(init, key, msgs);
      assert fields == init + [fields[n]];
      if fields[n].0 == key {
        assert forall i | 0 <= i < n :: init[i].0 != key;
      }
    }
  }

  /** The messages under a known field, each translated by that field's rules. */
  function FieldMessages(fields: FieldErrors, f: Field): (r: seq<string>)
    ensures |r| == |Lookup(fields, Key(f)).GetOr([])|
  {
    Map(Lookup(fields, Key(f)).GetOr([]), Translator(f))
  }

  /** The six known fields' blocks, in the source's fixed order. */
  function KnownMessages(fields: FieldErrors): seq<string> {
    FieldMessages(fields, FirstName) + FieldMessages(fields, LastName) + FieldMessages(fields, PhoneNumber)
    + FieldMessages(fields, Email) + FieldMessages(fields, Password) + FieldMessages(fields, ConfirmPassword)
  }

  /** Every message under any other key, unchanged, in key order. */
  function OtherMessages(fields: FieldErrors): seq<string>
    decreases |fields|
  {
    if fields == [] then []
    else
      var last := fields[|fields| - 1];
      OtherMessages(fields[..|fields| - 1]) + (if last.0 in KnownKeys then [] else last.1)
  }

  /** `errorMessages` once the object has been walked. */
  function CollectedMessages(fields: FieldErrors): seq<string> {
    KnownMessages(fields) + OtherMessages(fields)
  }

  function EntrySize(entry: (string, seq<string>)): int {
    |entry.1|
  }

  /** How many messages the object holds over all its keys. */
  function MessageCount(fields: FieldErrors): int {
    SumOf(fields, EntrySize)
  }

  function CountUnder(fields: FieldErrors, f: Field): nat {
    |Lookup(fields, Key(f)).GetOr([])|
  }

  /** Adding an entry with a new key adds its messages to that key's count only. */
  lemma CountUnderSnoc(init: FieldErrors, entry: (string, seq<string>), f: Field)
    requires forall i | 0 <= i < |init| :: init[i].0 != entry.0
    ensures CountUnder(init + [entry], f) == CountUnder(init, f) + (if entry.0 == Key(f) then |entry.1| else 0)
  {
    assert (init + [entry])[..|init|] == init;
  }

  lemma OtherMessagesSnoc(init: FieldErrors, entry: (string, seq<string>))
    ensures |OtherMessages(init + [entry])| == |OtherMessages(init)| + (if entry.0 in KnownKeys then 0 else |entry.1|)
  {
    assert (init + [entry])[..|init|] == init;
  }

  /** A key is skipped by the last pass exactly when it is one of the six fields' keys. */
  lemma KnownKeyIsFieldKey(key: string)
    ensures key in KnownKeys <==>
      key == Key(FirstName) || key == Key(LastName) || key == Key(PhoneNumber)
      || key == Key(Email) || key == Key(Password) || key == Key(ConfirmPassword)
  {
  }

  function KnownCount(fields: FieldErrors): int {
    CountUnder(fields, FirstName) + CountUnder(fields, LastName) + CountUnder(fields, PhoneNumber)
    + CountUnder(fields, Email) + CountUnder(fields, Password) + CountUnder(fields, ConfirmPassword)
  }

  lemma {:induction false} CountSplits(fields: FieldErrors)
    requires DistinctKeys(fields)
    ensures MessageCount(fields) == KnownCount(fields) + |OtherMessages(fields)|
    decreases |fields|
  {
    if fields != [] {
      var n := |fields| - 1;
      var init, entry := fields[..n], fields[n];
      assert fields == init + [entry];
      assert DistinctKeys(init);
      CountSplits(init);
      assert forall i | 0 <= i < n :: init[i].0 != entry.0;
      CountUnderSnoc(init, entry, FirstName);
      CountUnderSnoc(init, entry, LastName);
      CountUnderSnoc(init, entry, PhoneNumber);
      CountUnderSnoc(init, entry, Email);
      CountUnderSnoc(init, entry, Password);
      CountUnderSnoc(init, entry, ConfirmPassword);
      OtherMessagesSnoc(init, entry);
      KnownKeyIsFieldKey(entry.0);
    }
  }

  /** Every message under every key gives exactly one output message. */
  lemma CollectedCount(fields: FieldErrors)
    requires DistinctKeys(fields)
    ensures |CollectedMessages(fields)| == MessageCount(fields)
  {
    CountSplits(fields);
    assert |KnownMessages(fields)| == KnownCount(fields);
  }

  lemma LookupSameEntries(f1: FieldErrors, f2: FieldErrors, key: string)
    requires DistinctKeys(f1) && DistinctKeys(f2)
    requires forall e :: e in f1 <==> e in f2
    ensures Lookup(f1, key) == Lookup(f2, key)
  {
    match Lookup(f1, key)
    case Some(msgs) =>
      LookupFindsEntry(f1, key, msgs);
      LookupFindsEntry(f2, key, msgs);
    case None =>
      forall i | 0 <= i < |f2| ensures f2[i].0 != key {
        assert f2[i] in f1;
      }
  }

  /** The known fields come out in the same fixed order whatever order the server sent the keys in. */
  lemma KnownMessagesIgnoreKeyOrder(f1: FieldErrors, f2: FieldErrors)
    requires DistinctKeys(f1) && DistinctKeys(f2)
    requires forall e :: e in f1 <==> e in f2
    ensures KnownMessages(f1) == KnownMessages(f2)
  {
    LookupSameEntries(f1, f2, Key(FirstName));
    LookupSameEntries(f1, f2, Key(LastName));
    LookupSameEntries(f1, f2, Key(PhoneNumber));
    LookupSameEntries(f1, f2, Key(Email));
    LookupSameEntries(f1, f2, Key(Password));
    LookupSameEntries(f1, f2, Key(ConfirmPassword));
  }

  // ----- Joining the messages -----

  const BlockOpen: string := "<div style=\"direction: rtl; text-align: right; margin-bottom: 8px; padding-right: 15px; position: relative;\">\n             "
  const BlockClose: string := "\n             <span style=\"position: absolute; right: 0; top: 0;\">•</span>\n           </div>"

  /** One message in its right-to-left block with a bullet. */
  function Block(msg: string): string {
    BlockOpen + msg + BlockClose
  }

  /** `join("")`. */
  function Concat(parts: seq<string>): string
    decreases |parts|
  {
    if parts == [] then "" else Concat(parts[..|parts| - 1]) + parts[|parts| - 1]
  }

  lemma {:induction false} ConcatSplit(parts: seq<string>, i: nat)
    requires i < |parts|
    ensures Concat(parts) == Concat(parts[..i]) + parts[i] + Concat(parts[i + 1..])
    decreases |parts|
  {
    var n := |parts| - 1;
    if i == n {
      assert parts[i + 1..] == [];
    } else {
      assert parts[..n][..i] == parts[..i];
      assert parts[..n][i + 1..] == parts[i + 1..n];
      ConcatSplit(parts[..n], i);
      assert parts[i + 1..][..|parts[i + 1..]| - 1] == parts[i + 1..n];
    }
  }

  /** Several messages become one block each, one message is shown as it is, none gives the title or the default. */
  function Combine(msgs: seq<string>, title: Option<string>): string {
    if |msgs| > 1 then Concat(Map(msgs, Block))
    else if |msgs| == 1 then msgs[0]
    else OrElse(title, InvalidData)
  }

  lemma ContainsWrapped(x: string, open: string, m: string, close: string, y: string)
    ensures Contains(x + (open + m + close) + y, m)
  {
    var s := x + (open + m + close) + y;
    var k := |x| + |open|;
    assert s[k..][..|m|] == m;
    ContainsAt(s, k, m);
  }

  /** No message is lost in the join: each appears, inside its own block, in the result. */
  lemma CombineKeepsEveryMessage(msgs: seq<string>, title: Option<string>)
    requires |msgs| > 1
    ensures forall i | 0 <= i < |msgs| :: Contains(Combine(msgs, title), msgs[i])
    ensures forall m | m in msgs :: Contains(Combine(msgs, title), m)
  {
    var blocks := Map(msgs, Block);
    forall i | 0 <= i < |msgs| ensures Contains(Combine(msgs, title), msgs[i]) {
      ConcatSplit(blocks, i);
      assert blocks[i] == BlockOpen + msgs[i] + BlockClose;
      ContainsWrapped(Concat(blocks[..i]), BlockOpen, msgs[i], BlockClose, Concat(blocks[i + 1..]));
    }
  }

  // ----- The whole translation -----

  /** The error-list branch: two codes have their own text, any other shows its description or the generic one. */
  function TranslateCode(error: ApiError): (r: string)
    ensures r != ""
    ensures r == InvalidCredentials || r == UserNotFound || r == AuthFallback || error.description == Some(r)
    ensures error.code != "User.InvalidCredentials" && error.code != "User.NotFound" && error.description.Some? ==>
      r == if error.description.value == "" then AuthFallback else error.description.value
  {
    match error.code
    case "User.InvalidCredentials" => InvalidCredentials
    case "User.NotFound" => UserNotFound
    case _ => OrElse(error.description, AuthFallback)
  }

  /** The plain-message tests, lower-case, in the source's order. */
  const MessageRules: seq<Rule> := [
    Rule(IncludesLower("invalid"), Fixed("البريد الإلكتروني أو كلمة المرور غير صحيحة")),
    Rule(IncludesLower("credentials"), Fixed("البريد الإلكتروني أو كلمة المرور غير صحيحة")),
    Rule(IncludesLower("user not found"), Fixed("المستخدم غير موجود")),
    Rule(IncludesLower("email not confirmed"), Fixed("البريد الإلكتروني غير مؤكد")),
    Rule(IncludesLower("network"), Fixed("يرجى التحقق من اتصالك بالإنترنت")),
    Rule(IncludesLower("internet"), Fixed("يرجى التحقق من اتصالك بالإنترنت")),
    Rule(IncludesLower("timeout"), Fixed("انتهت المهلة، يرجى المحاولة مرة أخرى")),
    Rule(IncludesLower("time out"), Fixed("انتهت المهلة، يرجى المحاولة مرة أخرى"))]

  /**
   * The plain-message branch: a message mentioning "invalid" or
   * "credentials" in any case gets the credentials text, whatever else it
   * mentions; one that no test recognises is shown as it is.
   */
  function ClassifyMessage(msg: string): (r: string)
    ensures Contains(Lower(msg), "invalid") || Contains(Lower(msg), "credentials") ==> r == InvalidCredentials
    ensures (forall j | 0 <= j < |MessageRules| :: !Passes(MessageRules[j].test, msg)) ==> r == msg
  {
    ApplyRules(MessageRules, msg)
  }

  /** Reading `errors[0].code` needs a first entry; every other payload is accepted. */
  predicate Translatable(data: Option<ErrorData>) {
    data.Some? && data.value.errors.ErrorList? ==> |data.value.errors.list| > 0
  }

  function TranslateError(data: Option<ErrorData>): string
    requires Translatable(data)
  {
    match data
    case None => UnknownError
    case Some(d) =>
      match d.errors
      case ErrorList(list) => TranslateCode(list[0])
      case ErrorFields(fields) => Combine(CollectedMessages(fields), d.title)
      case NoErrors =>
        match d.message
        case Some(msg) => ClassifyMessage(msg)
        case None => OrElse(d.title, UnexpectedError)
  }

  /** Only the first entry of an error list is read: what follows it never changes the text. */
  lemma FirstErrorDecides(d: ErrorData, first: ApiError, rest: seq<ApiError>)
    requires d.errors == ErrorList([first] + rest)
    ensures TranslateError(Some(d)) == TranslateError(Some(d.(errors := ErrorList([first]))))
    ensures first.code != "User.InvalidCredentials" && first.code != "User.NotFound" ==>
      TranslateError(Some(d)) == OrElse(first.description, AuthFallback)
  {
  }

  /**
   * The object branch by message count: none gives the title or the
   * default, one gives that message (translated if under a known field),
   * several give a text that holds every one of them.
   */
  lemma ObjectBranchByCount(d: ErrorData, fields: FieldErrors)
    requires d.errors == ErrorFields(fields) && DistinctKeys(fields)
    ensures MessageCount(fields) == 0 ==> TranslateError(Some(d)) == OrElse(d.title, InvalidData)
    ensures MessageCount(fields) == 1 ==> |CollectedMessages(fields)| == 1 && TranslateError(Some(d)) == CollectedMessages(fields)[0]
    ensures MessageCount(fields) > 1 ==>
      forall m | m in CollectedMessages(fields) :: Contains(TranslateError(Some(d)), m)
  {
    CollectedCount(fields);
    var msgs := CollectedMessages(fields);
    assert TranslateError(Some(d)) == Combine(msgs, d.title);
    if |msgs| > 1 {
      CombineKeepsEveryMessage(msgs, d.title);
    }
  }

  /** A plain message that none of the tests recognise is shown exactly as the server wrote it. */
  lemma UnrecognisedMessageShownAsIs(d: ErrorData, msg: string)
    requires d.errors == NoErrors && d.message == Some(msg)
    requires forall j | 0 <= j < |MessageRules| :: !Passes(MessageRules[j].test, msg)
    ensures TranslateError(Some(d)) == msg
  {
  }

  /** The credentials code and a plain "Invalid credentials" message are shown the same text. */
  lemma CredentialsAgreeAcrossBranches(description: Option<string>, title: Option<string>)
    ensures TranslateError(Some(ErrorData(ErrorList([ApiError("User.InvalidCredentials", description)]), title, None)))
         == TranslateError(Some(ErrorData(NoErrors, title, Some("Invalid credentials"))))
  {
    var lowered := Lower("Invalid credentials");
    assert lowered[..7] == "invalid";
    assert StartsWith(lowered, "invalid");
    ContainsAt(lowered, 0, "invalid");
    assert Passes(MessageRules[0].test, "Invalid credentials");
  }

  // ----- The translation as the source runs it -----

  /** A `forEach(msg => errorMessages.push(t(msg)))` loop. */
  method PushAll(messages: seq<string>, msgs: seq<string>, t: string -> string) returns (out: seq<string>)
    ensures out == messages + Map(msgs, t)
  {
    out := messages;
    for m := 0 to |msgs|
      invariant out == messages + Map(msgs[..m], t)
    {
      assert Map(msgs[..m + 1], t) == Map(msgs[..m], t) + [t(msgs[m])];
      out := out + [t(msgs[m])];
    }
    assert msgs[..|msgs|] == msgs;
  }

  /** One `if (errorData.errors.<Field>) { ... forEach ... }` block. */
  method PushTranslated(messages: seq<string>, fields: FieldErrors, f: Field) returns (out: seq<string>)
    ensures out == messages + FieldMessages(fields, f)
  {
    out := messages;
    var found := Lookup(fields, Key(f));
    if found.Some? {
      out := PushAll(messages, found.value, Translator(f));
    }
  }

  function Unchanged(msg: string): string {
    msg
  }

  lemma MapUnchanged(msgs: seq<string>)
    ensures Map(msgs, Unchanged) == msgs
  {
  }

  /** The six known fields' blocks, in order. */
  method PushKnown(fields: FieldErrors) returns (messages: seq<string>)
    ensures messages == KnownMessages(fields)
  {
    ghost var first := FieldMessages(fields, FirstName);
    messages := PushTranslated([], fields, FirstName);
    assert messages == first;
    messages := PushTranslated(messages, fields, LastName);
    messages := PushTranslated(messages, fields, PhoneNumber);
    messages := PushTranslated(messages, fields, Email);
    messages := PushTranslated(messages, fields, Password);
    messages := PushTranslated(messages, fields, ConfirmPassword);
  }

  /** The final `Object.keys(...).forEach` pass: every other key's messages, unchanged. */
  method PushOthers(messages: seq<string>, fields: FieldErrors) returns (out: seq<string>)
    ensures out == messages + OtherMessages(fields)
  {
    out := messages;
    for k := 0 to |fields|
      invariant out == messages + OtherMessages(fields[..k])
    {
      var (key, msgs) := fields[k];
      assert fields[..k + 1][..k] == fields[..k];
      if key !in KnownKeys {
        out := PushAll(out, msgs, Unchanged);
        MapUnchanged(msgs);
      }
    }
    assert fields[..|fields|] == fields;
  }

  /** The object branch's walk: the six known fields in order, then every other key's messages as they are. */
  method CollectMessages(fields: FieldErrors) returns (messages: seq<string>)
    ensures messages == CollectedMessages(fields)
  {
    messages := PushKnown(fields);
    messages := PushOthers(messages, fields);
  }

  /** `htmlMessages.join("")`: the blocks one after another. */
  method JoinBlocks(blocks: seq<string>) returns (text: string)
    ensures text == Concat(blocks)
  {
    text := "";
    for i := 0 to |blocks|
      invariant text == Concat(blocks[..i])
    {
      assert blocks[..i + 1][..i] == blocks[..i];
      text := text + blocks[i];
    }
    assert blocks[..|blocks|] == blocks;
  }

  /** The end of the object branch: several messages are wrapped and joined, one is shown as it is, none gives the title or the default. */
  method CombineMessages(messages: seq<string>, title: Option<string>) returns (text: string)
    ensures text == Combine(messages, title)
  {
    if |messages| > 1 {
      text := JoinBlocks(Map(messages, Block));
    } else if |messages| == 1 {
      text := messages[0];
    } else {
      text := OrElse(title, InvalidData);
    }
  }

  /** `ErrorTranslator.translate(errorData)`. */
  method Translate(data: Option<ErrorData>) returns (text: string)
    requires Translatable(data)
    ensures text == TranslateError(data)
  {
    if data.None? {
      return UnknownError;
    }
    var d := data.value;
    match d.errors {
      case ErrorList(list) =>
        text := TranslateCode(list[0]);
      case ErrorFields(fields) =>
        var messages := CollectMessages(fields);
        text := CombineMessages(messages, d.title);
      case NoErrors =>
        if d.message.Some? {
          text := ClassifyMessage(d.message.value);
        } else {
          text := OrElse(d.title, UnexpectedError);
        }
    }
  }
}
