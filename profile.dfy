/**
 * The profile page's state helpers: the achievement toggle, the completeness check, the
 * membership badge, the savings-rate choice, and the save/load of the user and financial records
 * through browser storage.
 *
 * Storage holds text only. User text fields are written as they are, numbers with `toString()`;
 * loads use `getItem(key) || default`, so a missing key (`null`) and an empty text both give the
 * default, and integer fields use `parseInt(getItem(key)) || 0`.
 */
module Profile {
  import opened Options
  import opened NumberText
  import opened StorageMap

  // ---------------------------------------------------------------- achievements

  datatype Achievement = Achievement(id: int, title: string, description: string, icon: string, earned: bool)

  /** `toggleAchievement(id)`: flip `earned` on the achievements whose id is `id`. */
  function ToggleAchievement(achievements: seq<Achievement>, id: int): (r: seq<Achievement>)
    ensures |r| == |achievements|
    ensures forall i :: 0 <= i < |r| ==>
      r[i].id == achievements[i].id && r[i].title == achievements[i].title &&
      r[i].description == achievements[i].description && r[i].icon == achievements[i].icon
    ensures forall i :: 0 <= i < |r| ==>
      r[i].earned == (if achievements[i].id == id then !achievements[i].earned else achievements[i].earned)
  {
    seq(|achievements|, i requires 0 <= i < |achievements| =>
          var a := achievements[i];
          if a.id == id then a.(earned := !a.earned) else a)
  }

  /** Toggling the same id twice gives back the original list. */
  lemma {:induction false} ToggleTwice(achievements: seq<Achievement>, id: int)
    ensures ToggleAchievement(ToggleAchievement(achievements, id), id) == achievements
  {
    var r := ToggleAchievement(ToggleAchievement(achievements, id), id);
    assert forall i :: 0 <= i < |r| ==> r[i] == achievements[i];
  }

  /** Toggling an id no achievement carries changes nothing. */
  lemma {:induction false} ToggleAbsent(achievements: seq<Achievement>, id: int)
    requires forall i :: 0 <= i < |achievements| ==> achievements[i].id != id
    ensures ToggleAchievement(achievements, id) == achievements
  {
    var r := ToggleAchievement(achievements, id);
    assert forall i :: 0 <= i < |r| ==> r[i] == achievements[i];
  }

  // ---------------------------------------------------------------- user record

  /** The user record, fields in the order the page declares them. */
  datatype UserProfile = UserProfile(
    name: string, email: string, phone: string, address: string, profileImage: string,
    dateOfBirth: string, occupation: string, monthlyIncome: int, preferredCurrency: string,
    financialGoal: string, joinDate: string, membershipLevel: string, bio: string)

  /** The record the page starts with before anything is loaded. */
  const InitialUser := UserProfile("", "", "", "", "", "", "", 0, "USD", "", "", "Basic", "")

  /** `isProfileIncomplete()`: a name, e-mail or phone is missing, or the income is zero. */
  predicate IsProfileIncomplete(u: UserProfile) {
    u.name == "" || u.email == "" || u.phone == "" || u.monthlyIncome == 0
  }

  datatype Badge = Badge(color: string, text: string)

  /** `getMembershipBadge()`: Premium and Gold have their own badge, every other level is Basic. */
  function MembershipBadge(level: string): (b: Badge)
    ensures b.text == (if level == "Premium" || level == "Gold" then level else "Basic")
    ensures b.text == "Basic" <==> level != "Premium" && level != "Gold"
  {
    match level
    case "Premium" => Badge("bg-gradient-to-r from-yellow-400 to-orange-500", "Premium")
    case "Gold" => Badge("bg-gradient-to-r from-yellow-500 to-yellow-600", "Gold")
    case _ => Badge("bg-gradient-to-r from-gray-400 to-gray-500", "Basic")
  }

  /** The names of the user record's fields, in declaration order. */
  datatype UserField =
    | Name | Email | Phone | Address | ProfileImage | DateOfBirth | Occupation | MonthlyIncome
    | PreferredCurrency | FinancialGoal | JoinDate | MembershipLevel | Bio

  /** `Object.keys(user)`. */
  const UserFields: seq<UserField> := [Name, Email, Phone, Address, ProfileImage, DateOfBirth,
    Occupation, MonthlyIncome, PreferredCurrency, FinancialGoal, JoinDate, MembershipLevel, Bio]

  function UserFieldName(f: UserField): string {
    match f
    case Name => "name"
    case Email => "email"
    case Phone => "phone"
    case Address => "address"
    case ProfileImage => "profileImage"
    case DateOfBirth => "dateOfBirth"
    case Occupation => "occupation"
    case MonthlyIncome => "monthlyIncome"
    case PreferredCurrency => "preferredCurrency"
    case FinancialGoal => "financialGoal"
    case JoinDate => "joinDate"
    case MembershipLevel => "membershipLevel"
    case Bio => "bio"
  }

  predicate IsLower(c: char) {
    'a' <= c <= 'z'
  }

  /** ASCII `toUpperCase()` of one character; the field names are ASCII. */
  function UpperChar(c: char): (u: char)
    ensures IsLower(c) ==> 'A' <= u <= 'Z' && u as int == c as int - 32
    ensures !IsLower(c) ==> u == c
  {
    if IsLower(c) then (c as int - 32) as char else c
  }

  /** `key.charAt(0).toUpperCase() + key.slice(1)`. */
  function Capitalize(s: string): string {
    if s == [] then [] else s[0 := UpperChar(s[0])]
  }

  /** The storage key of each user field, as `saveUserData` spells it. */
  function UserKey(f: UserField): string {
    match f
    case Name => "userName"
    case Email => "userEmail"
    case Phone => "userPhone"
    case Address => "userAddress"
    case ProfileImage => "userProfileImage"
    case DateOfBirth => "userDateOfBirth"
    case Occupation => "userOccupation"
    case MonthlyIncome => "userMonthlyIncome"
    case PreferredCurrency => "userPreferredCurrency"
    case FinancialGoal => "userFinancialGoal"
    case JoinDate => "userJoinDate"
    case MembershipLevel => "userMembershipLevel"
    case Bio => "userBio"
  }

  /** Every key is `user` followed by the field name with its first letter upper-cased. */
  lemma UserKeyFormula(f: UserField)
    ensures UserKey(f) == "user" + Capitalize(UserFieldName(f))
  {
    match f
    case Name => NameKeyFormula();
    case Email => EmailKeyFormula();
    case Phone => PhoneKeyFormula();
    case Address => AddressKeyFormula();
    case ProfileImage => ProfileImageKeyFormula();
    case DateOfBirth => DateOfBirthKeyFormula();
    case Occupation => OccupationKeyFormula();
    case MonthlyIncome => MonthlyIncomeKeyFormula();
    case PreferredCurrency => PreferredCurrencyKeyFormula();
    case FinancialGoal => FinancialGoalKeyFormula();
    case JoinDate => JoinDateKeyFormula();
    case MembershipLevel => MembershipLevelKeyFormula();
    case Bio => BioKeyFormula();
  }

  // One lemma per key keeps each comparison of literal texts in a proof obligation of its own.
  lemma NameKeyFormula() ensures UserKey(Name) == "user" + Capitalize("name") { assert UpperChar('n') == 'N'; }
  lemma EmailKeyFormula() ensures UserKey(Email) == "user" + Capitalize("email") { assert UpperChar('e') == 'E'; }
  lemma PhoneKeyFormula() ensures UserKey(Phone) == "user" + Capitalize("phone") { assert UpperChar('p') == 'P'; }
  lemma AddressKeyFormula() ensures UserKey(Address) == "user" + Capitalize("address") { assert UpperChar('a') == 'A'; }
  lemma ProfileImageKeyFormula() ensures UserKey(ProfileImage) == "user" + Capitalize("profileImage") { assert UpperChar('p') == 'P'; }
  lemma DateOfBirthKeyFormula() ensures UserKey(DateOfBirth) == "user" + Capitalize("dateOfBirth") { assert UpperChar('d') == 'D'; }
  lemma OccupationKeyFormula() ensures UserKey(Occupation) == "user" + Capitalize("occupation") { assert UpperChar('o') == 'O'; }
  lemma MonthlyIncomeKeyFormula() ensures UserKey(MonthlyIncome) == "user" + Capitalize("monthlyIncome") { assert UpperChar('m') == 'M'; }
  lemma PreferredCurrencyKeyFormula() ensures UserKey(PreferredCurrency) == "user" + Capitalize("preferredCurrency") { assert UpperChar('p') == 'P'; }
  lemma FinancialGoalKeyFormula() ensures UserKey(FinancialGoal) == "user" + Capitalize("financialGoal") { assert UpperChar('f') == 'F'; }
  lemma JoinDateKeyFormula() ensures UserKey(JoinDate) == "user" + Capitalize("joinDate") { assert UpperChar('j') == 'J'; }
  lemma MembershipLevelKeyFormula() ensures UserKey(MembershipLevel) == "user" + Capitalize("membershipLevel") { assert UpperChar('m') == 'M'; }
  lemma BioKeyFormula() ensures UserKey(Bio) == "user" + Capitalize("bio") { assert UpperChar('b') == 'B'; }

  /** The field a storage key belongs to, if any: the inverse of `UserKey`. */
  function UserFieldOfKey(key: string): Option<UserField> {
    if key == "userName" then Some(Name)
    else if key == "userEmail" then Some(Email)
    else if key == "userPhone" then Some(Phone)
    else if key == "userAddress" then Some(Address)
    else if key == "userProfileImage" then Some(ProfileImage)
    else if key == "userDateOfBirth" then Some(DateOfBirth)
    else if key == "userOccupation" then Some(Occupation)
    else if key == "userMonthlyIncome" then Some(MonthlyIncome)
    else if key == "userPreferredCurrency" then Some(PreferredCurrency)
    else if key == "userFinancialGoal" then Some(FinancialGoal)
    else if key == "userJoinDate" then Some(JoinDate)
    else if key == "userMembershipLevel" then Some(MembershipLevel)
    else if key == "userBio" then Some(Bio)
    else None
  }

  /** Different user fields are stored under different keys. */
  lemma UserKeyInjective(f: UserField, g: UserField)
    requires UserKey(f) == UserKey(g)
    ensures f == g
  {
    assert UserFieldOfKey(UserKey(f)) == Some(f);
    assert UserFieldOfKey(UserKey(g)) == Some(g);
  }

  /** Where each field sits in `UserFields`: every field is listed. */
  function UserFieldIndex(f: UserField): (i: nat)
    ensures i < |UserFields| && UserFields[i] == f
  {
    match f
    case Name => 0
    case Email => 1
    case Phone => 2
    case Address => 3
    case ProfileImage => 4
    case DateOfBirth => 5
    case Occupation => 6
    case MonthlyIncome => 7
    case PreferredCurrency => 8
    case FinancialGoal => 9
    case JoinDate => 10
    case MembershipLevel => 11
    case Bio => 12
  }

  /** The text `saveUserData` writes for a field: text fields as they are, the income as digits. */
  function UserValue(u: UserProfile, f: UserField): string {
    match f
    case Name => u.name
    case Email => u.email
    case Phone => u.phone
    case Address => u.address
    case ProfileImage => u.profileImage
    case DateOfBirth => u.dateOfBirth
    case Occupation => u.occupation
    case MonthlyIncome => IntToText(u.monthlyIncome)
    case PreferredCurrency => u.preferredCurrency
    case FinancialGoal => u.financialGoal
    case JoinDate => u.joinDate
    case MembershipLevel => u.membershipLevel
    case Bio => u.bio
  }

  /** The `setItem` calls `saveUserData` makes, in order. */
  function UserEntries(u: UserProfile): (es: seq<Entry>)
    ensures |es| == |UserFields|
    ensures forall i :: 0 <= i < |es| ==> es[i] == (UserKey(UserFields[i]), UserValue(u, UserFields[i]))
  {
    seq(|UserFields|, i requires 0 <= i < |UserFields| => (UserKey(UserFields[i]), UserValue(u, UserFields[i])))
  }

  /** The set of keys `saveUserData` writes. */
  function UserKeys(): set<string> {
    set f: UserField | f in UserFields :: UserKey(f)
  }

  lemma UserEntriesDistinct(u: UserProfile)
    ensures DistinctKeys(UserEntries(u))
    ensures KeysOf(UserEntries(u)) == UserKeys()
  {
    var es := UserEntries(u);
    forall i, j | 0 <= i < j < |es| ensures es[i].0 != es[j].0 {
      if es[i].0 == es[j].0 {
        UserKeyInjective(UserFields[i], UserFields[j]);
      }
    }
  }

  /**
   * `saveUserData` writes every field under `user` + its capitalised name, with the value it
   * holds, and leaves every other key as it was.
   */
  lemma SaveUserDataWrites(m: map<string, string>, u: UserProfile)
    ensures WriteAll(m, UserEntries(u)).Keys == m.Keys + UserKeys()
    ensures forall f :: (UserKey(f) in WriteAll(m, UserEntries(u)) &&
      WriteAll(m, UserEntries(u))[UserKey(f)] == UserValue(u, f))
    ensures forall k :: k !in UserKeys() && k in m ==> WriteAll(m, UserEntries(u))[k] == m[k]
  {
    var es := UserEntries(u);
    UserEntriesDistinct(u);
    WriteAllKeys(m, es);
    forall f ensures UserKey(f) in WriteAll(m, es) && WriteAll(m, es)[UserKey(f)] == UserValue(u, f) {
      WriteAllStores(m, es, UserFieldIndex(f));
    }
    forall k | k !in UserKeys() && k in m ensures WriteAll(m, es)[k] == m[k] {
      WriteAllKeepsOthers(m, es, k);
    }
  }

  // ---------------------------------------------------------------- loading

  /*
   * The loads are stated for any integer parser `parseInt` (`None` is NaN); the lemmas ask of it
   * only what `ParseIntReadsBack` and `ParseIntOfNull` show of JavaScript's `parseInt`, which
   * `NumberText.ParseInt` models.
   */

  /** `parseInt` reads back the text `toString()` writes for every integer. */
  ghost predicate ReadsBackIntegers(parseInt: string -> Option<int>) {
    forall n: int :: parseInt(IntToText(n)) == Some(n)
  }

  /** JavaScript's `parseInt` reads integers back. */
  lemma ParseIntReadsBack()
    ensures ReadsBackIntegers(ParseInt)
  {
    forall n: int ensures ParseInt(IntToText(n)) == Some(n) {
      ParseIntRoundTrip(n);
    }
  }

  /** JavaScript's `parseInt` reads a missing entry (`null`, the text "null") as NaN. */
  lemma ParseIntOfNull()
    ensures ParseInt("null") == None
  {
    NoDigitsIsNaN("null");
  }

  /** `localStorage.getItem(key) || fallback`: a missing key and an empty text both give `fallback`. */
  function TextOr(items: map<string, string>, key: string, fallback: string): string {
    if key in items && items[key] != "" then items[key] else fallback
  }

  /** `getItem(key)`: the stored text, or `null`, which the parsers read as the text "null". */
  function StoredText(items: map<string, string>, key: string): string {
    if key in items then items[key] else "null"
  }

  /** Stored text comes back as it is, unless it is empty and the fallback is not. */
  lemma TextOrReads(items: map<string, string>, key: string, v: string, fallback: string)
    requires key in items && items[key] == v
    requires v == "" ==> fallback == ""
    ensures TextOr(items, key, fallback) == v
  {
  }

  /** `parseInt(localStorage.getItem(key)) || 0`: NaN and zero both give 0. */
  function IntOrZero(items: map<string, string>, key: string, parseInt: string -> Option<int>): int {
    match parseInt(StoredText(items, key))
    case None => 0
    case Some(n) => n
  }

  /** A number written with `toString()` is loaded back unchanged. */
  lemma IntOrZeroReadsText(items: map<string, string>, key: string, n: int, parseInt: string -> Option<int>)
    requires key in items && items[key] == IntToText(n)
    requires ReadsBackIntegers(parseInt)
    ensures IntOrZero(items, key, parseInt) == n
  {
  }

  /**
   * `loadUserData()` with the keys it reads the profile image and the currency from left open;
   * every other field is read from the key `saveUserData` writes it under. `today` is
   * `new Date().toISOString().split('T')[0]`.
   */
  function LoadUserFrom(items: map<string, string>, today: string, parseInt: string -> Option<int>,
                        imageKey: string, currencyKey: string): UserProfile {
    UserProfile(
      name := TextOr(items, "userName", ""),
      email := TextOr(items, "userEmail", ""),
      phone := TextOr(items, "userPhone", ""),
      address := TextOr(items, "userAddress", ""),
      profileImage := TextOr(items, imageKey, ""),
      dateOfBirth := TextOr(items, "userDateOfBirth", ""),
      occupation := TextOr(items, "userOccupation", ""),
      monthlyIncome := IntOrZero(items, "userMonthlyIncome", parseInt),
      preferredCurrency := TextOr(items, currencyKey, "USD"),
      financialGoal := TextOr(items, "userFinancialGoal", ""),
      joinDate := TextOr(items, "userJoinDate", today),
      membershipLevel := TextOr(items, "userMembershipLevel", "Basic"),
      bio := TextOr(items, "userBio", ""))
  }

  /**
   * `loadUserData()` as written: the profile image is read from `profileImage` and the currency
   * from `userCurrency`, and `saveUserData` writes neither key.
   */
  function LoadUserData(items: map<string, string>, today: string, parseInt: string -> Option<int>): UserProfile {
    LoadUserFrom(items, today, parseInt, "profileImage", "userCurrency")
  }

  /** `loadUserData()` reading every field from the key `saveUserData` writes it under. */
  function LoadUserDataIntended(items: map<string, string>, today: string, parseInt: string -> Option<int>): UserProfile {
    LoadUserFrom(items, today, parseInt, UserKey(ProfileImage), UserKey(PreferredCurrency))
  }

  /** Fields whose load has a non-empty default must hold text to come back as they were. */
  predicate DefaultedFieldsSet(u: UserProfile) {
    u.preferredCurrency != "" && u.joinDate != "" && u.membershipLevel != ""
  }

  /** A store holding the text of every field of `u` loads as `u` when every key matches. */
  lemma LoadUserDataIntendedReads(items: map<string, string>, u: UserProfile, today: string,
                                  parseInt: string -> Option<int>)
    requires forall f :: UserKey(f) in items && items[UserKey(f)] == UserValue(u, f)
    requires DefaultedFieldsSet(u) && ReadsBackIntegers(parseInt)
    ensures LoadUserDataIntended(items, today, parseInt) == u
  {
    TextOrReads(items, UserKey(Name), u.name, "");
    TextOrReads(items, UserKey(Email), u.email, "");
    TextOrReads(items, UserKey(Phone), u.phone, "");
    TextOrReads(items, UserKey(Address), u.address, "");
    TextOrReads(items, UserKey(ProfileImage), u.profileImage, "");
    TextOrReads(items, UserKey(DateOfBirth), u.dateOfBirth, "");
    TextOrReads(items, UserKey(Occupation), u.occupation, "");
    TextOrReads(items, UserKey(PreferredCurrency), u.preferredCurrency, "USD");
    TextOrReads(items, UserKey(FinancialGoal), u.financialGoal, "");
    TextOrReads(items, UserKey(JoinDate), u.joinDate, today);
    TextOrReads(items, UserKey(MembershipLevel), u.membershipLevel, "Basic");
    TextOrReads(items, UserKey(Bio), u.bio, "");
    assert items[UserKey(MonthlyIncome)] == IntToText(u.monthlyIncome);
    IntOrZeroReadsText(items, UserKey(MonthlyIncome), u.monthlyIncome, parseInt);
  }

  /** With matching keys, saving and then loading gives back the saved record. */
  lemma IntendedUserRoundTrip(m: map<string, string>, u: UserProfile, today: string,
                              parseInt: string -> Option<int>)
    requires DefaultedFieldsSet(u) && ReadsBackIntegers(parseInt)
    ensures LoadUserDataIntended(WriteAll(m, UserEntries(u)), today, parseInt) == u
  {
    SaveUserDataWrites(m, u);
    LoadUserDataIntendedReads(WriteAll(m, UserEntries(u)), u, today, parseInt);
  }

  /** The two keys left open decide the profile image and the currency and nothing else. */
  lemma LoadUserFromKeys(items: map<string, string>, today: string, parseInt: string -> Option<int>,
                         imageKey: string, currencyKey: string, imageKey': string, currencyKey': string)
    ensures LoadUserFrom(items, today, parseInt, imageKey, currencyKey) ==
      LoadUserFrom(items, today, parseInt, imageKey', currencyKey').(
        profileImage := TextOr(items, imageKey, ""),
        preferredCurrency := TextOr(items, currencyKey, "USD"))
  {
  }

  /**
   * The load as written differs from the intended one in exactly two fields, which it reads from
   * `profileImage` and `userCurrency`.
   */
  lemma LoadUserDataDiffers(items: map<string, string>, today: string, parseInt: string -> Option<int>)
    ensures LoadUserData(items, today, parseInt) == LoadUserDataIntended(items, today, parseInt).(
      profileImage := TextOr(items, "profileImage", ""),
      preferredCurrency := TextOr(items, "userCurrency", "USD"))
  {
    LoadUserFromKeys(items, today, parseInt, "profileImage", "userCurrency",
                     UserKey(ProfileImage), UserKey(PreferredCurrency));
  }

  /** Neither `profileImage` nor `userCurrency` is a key `saveUserData` writes. */
  lemma StaleKeysNotWritten()
    ensures "profileImage" !in UserKeys()
    ensures "userCurrency" !in UserKeys()
  {
    assert UserFieldOfKey("profileImage") == None;
    assert UserFieldOfKey("userCurrency") == None;
    forall f: UserField ensures UserFieldOfKey(UserKey(f)) == Some(f) {
    }
  }

  /** Saving leaves whatever the store held under `profileImage` and `userCurrency`. */
  lemma SaveKeepsStaleKeys(m: map<string, string>, u: UserProfile)
    ensures TextOr(WriteAll(m, UserEntries(u)), "profileImage", "") == TextOr(m, "profileImage", "")
    ensures TextOr(WriteAll(m, UserEntries(u)), "userCurrency", "USD") == TextOr(m, "userCurrency", "USD")
  {
    UserEntriesDistinct(u);
    StaleKeysNotWritten();
    WriteAllKeepsOthers(m, UserEntries(u), "profileImage");
    WriteAllKeepsOthers(m, UserEntries(u), "userCurrency");
  }

  /**
   * As written, save-then-load gives back every field except two: the profile image and the
   * currency come from whatever the store held under `profileImage` and `userCurrency` before.
   */
  lemma UserRoundTrip(m: map<string, string>, u: UserProfile, today: string, parseInt: string -> Option<int>)
    requires DefaultedFieldsSet(u) && ReadsBackIntegers(parseInt)
    ensures LoadUserData(WriteAll(m, UserEntries(u)), today, parseInt) ==
      u.(profileImage := TextOr(m, "profileImage", ""), preferredCurrency := TextOr(m, "userCurrency", "USD"))
  {
    var items := WriteAll(m, UserEntries(u));
    IntendedUserRoundTrip(m, u, today, parseInt);
    LoadUserDataDiffers(items, today, parseInt);
    SaveKeepsStaleKeys(m, u);
  }

  /** A chosen profile image is lost on reload when the store had none under `profileImage`. */
  lemma ProfileImageNotRestored(u: UserProfile, today: string, parseInt: string -> Option<int>)
    requires u.profileImage != ""
    ensures LoadUserData(WriteAll(map[], UserEntries(u)), today, parseInt).profileImage == ""
  {
    SaveKeepsStaleKeys(map[], u);
  }

  /** A chosen currency comes back as USD when the store had no `userCurrency`. */
  lemma CurrencyNotRestored(u: UserProfile, today: string, parseInt: string -> Option<int>)
    ensures LoadUserData(WriteAll(map[], UserEntries(u)), today, parseInt).preferredCurrency == "USD"
  {
    SaveKeepsStaleKeys(map[], u);
  }

  /** Whether the profile is complete survives a save and a load. */
  lemma CompletenessSurvivesReload(m: map<string, string>, u: UserProfile, today: string,
                                   parseInt: string -> Option<int>)
    requires DefaultedFieldsSet(u) && ReadsBackIntegers(parseInt)
    ensures IsProfileIncomplete(LoadUserData(WriteAll(m, UserEntries(u)), today, parseInt)) == IsProfileIncomplete(u)
  {
    UserRoundTrip(m, u, today, parseInt);
  }

  /** An empty store loads the initial record (dated today): incomplete, with the Basic badge. */
  lemma EmptyStoreProfile(today: string, parseInt: string -> Option<int>)
    requires parseInt("null") == None
    ensures LoadUserData(map[], today, parseInt) == InitialUser.(joinDate := today)
    ensures IsProfileIncomplete(LoadUserData(map[], today, parseInt))
    ensures MembershipBadge(LoadUserData(map[], today, parseInt).membershipLevel).text == "Basic"
  {
  }

  // ---------------------------------------------------------------- financial record

  datatype FinancialData = FinancialData(
    totalSaved: int, savingsGoal: int, monthlySpent: int, savingsRate: real,
    creditScore: int, investments: int, netWorth: int)

  datatype FinancialField =
    | TotalSaved | SavingsGoal | MonthlySpent | SavingsRate | CreditScore | Investments | NetWorth

  /** `Object.keys(financialData)`. */
  const FinancialFields: seq<FinancialField> :=
    [TotalSaved, SavingsGoal, MonthlySpent, SavingsRate, CreditScore, Investments, NetWorth]

  /** The storage key of a financial field is its own name. */
  function FinancialKey(f: FinancialField): string {
    match f
    case TotalSaved => "totalSaved"
    case SavingsGoal => "savingsGoal"
    case MonthlySpent => "monthlySpent"
    case SavingsRate => "savingsRate"
    case CreditScore => "creditScore"
    case Investments => "investments"
    case NetWorth => "netWorth"
  }

  function FinancialFieldIndex(f: FinancialField): (i: nat)
    ensures i < |FinancialFields| && FinancialFields[i] == f
  {
    match f
    case TotalSaved => 0
    case SavingsGoal => 1
    case MonthlySpent => 2
    case SavingsRate => 3
    case CreditScore => 4
    case Investments => 5
    case NetWorth => 6
  }

  function FinancialFieldNamed(name: string): Option<FinancialField> {
    if name == "totalSaved" then Some(TotalSaved)
    else if name == "savingsGoal" then Some(SavingsGoal)
    else if name == "monthlySpent" then Some(MonthlySpent)
    else if name == "savingsRate" then Some(SavingsRate)
    else if name == "creditScore" then Some(CreditScore)
    else if name == "investments" then Some(Investments)
    else if name == "netWorth" then Some(NetWorth)
    else None
  }

  lemma FinancialKeyInjective(f: FinancialField, g: FinancialField)
    requires FinancialKey(f) == FinancialKey(g)
    ensures f == g
  {
    assert FinancialFieldNamed(FinancialKey(f)) == Some(f);
    assert FinancialFieldNamed(FinancialKey(g)) == Some(g);
  }

  /**
   * The text `saveFinancialData` writes for a field (`toString()`). The rate is a floating-point
   * number; its text form is the parameter `showReal`.
   */
  function FinancialValue(fin: FinancialData, f: FinancialField, showReal: real -> string): string {
    match f
    case TotalSaved => IntToText(fin.totalSaved)
    case SavingsGoal => IntToText(fin.savingsGoal)
    case MonthlySpent => IntToText(fin.monthlySpent)
    case SavingsRate => showReal(fin.savingsRate)
    case CreditScore => IntToText(fin.creditScore)
    case Investments => IntToText(fin.investments)
    case NetWorth => IntToText(fin.netWorth)
  }

  /** The `setItem` calls `saveFinancialData` makes, in order. */
  function FinancialEntries(fin: FinancialData, showReal: real -> string): (es: seq<Entry>)
    ensures |es| == |FinancialFields|
    ensures forall i :: 0 <= i < |es| ==>
      es[i] == (FinancialKey(FinancialFields[i]), FinancialValue(fin, FinancialFields[i], showReal))
  {
    seq(|FinancialFields|, i requires 0 <= i < |FinancialFields| =>
      (FinancialKey(FinancialFields[i]), FinancialValue(fin, FinancialFields[i], showReal)))
  }

  function FinancialKeys(): set<string> {
    set f: FinancialField | f in FinancialFields :: FinancialKey(f)
  }

  lemma FinancialEntriesDistinct(fin: FinancialData, showReal: real -> string)
    ensures DistinctKeys(FinancialEntries(fin, showReal))
    ensures KeysOf(FinancialEntries(fin, showReal)) == FinancialKeys()
  {
    var es := FinancialEntries(fin, showReal);
    forall i, j | 0 <= i < j < |es| ensures es[i].0 != es[j].0 {
      if es[i].0 == es[j].0 {
        FinancialKeyInjective(FinancialFields[i], FinancialFields[j]);
      }
    }
  }

  /** `saveFinancialData` writes every field under its own name and leaves other keys alone. */
  lemma SaveFinancialDataWrites(m: map<string, string>, fin: FinancialData, showReal: real -> string)
    ensures WriteAll(m, FinancialEntries(fin, showReal)).Keys == m.Keys + FinancialKeys()
    ensures forall f :: (FinancialKey(f) in WriteAll(m, FinancialEntries(fin, showReal)) &&
      WriteAll(m, FinancialEntries(fin, showReal))[FinancialKey(f)] == FinancialValue(fin, f, showReal))
    ensures forall k :: k !in FinancialKeys() && k in m ==>
      WriteAll(m, FinancialEntries(fin, showReal))[k] == m[k]
  {
    var es := FinancialEntries(fin, showReal);
    FinancialEntriesDistinct(fin, showReal);
    WriteAllKeys(m, es);
    forall f ensures FinancialKey(f) in WriteAll(m, es) && WriteAll(m, es)[FinancialKey(f)] == FinancialValue(fin, f, showReal) {
      WriteAllStores(m, es, FinancialFieldIndex(f));
    }
    forall k | k !in FinancialKeys() && k in m ensures WriteAll(m, es)[k] == m[k] {
      WriteAllKeepsOthers(m, es, k);
    }
  }

  /** `parseFloat(localStorage.getItem(key)) || 0`; `parseReal` is `parseFloat`, `None` is NaN. */
  function RealOrZero(items: map<string, string>, key: string, parseReal: string -> Option<real>): real {
    match parseReal(StoredText(items, key))
    case None => 0.0
    case Some(x) => x
  }

  /** `loadFinancialData()`: every field from the key of its own name, 0 when missing or not a number. */
  function LoadFinancialData(items: map<string, string>, parseInt: string -> Option<int>,
                             parseReal: string -> Option<real>): FinancialData
  {
    FinancialData(
      totalSaved := IntOrZero(items, "totalSaved", parseInt),
      savingsGoal := IntOrZero(items, "savingsGoal", parseInt),
      monthlySpent := IntOrZero(items, "monthlySpent", parseInt),
      savingsRate := RealOrZero(items, "savingsRate", parseReal),
      creditScore := IntOrZero(items, "creditScore", parseInt),
      investments := IntOrZero(items, "investments", parseInt),
      netWorth := IntOrZero(items, "netWorth", parseInt))
  }

  /** An empty store loads all zeros. */
  lemma EmptyStoreFinancial(parseInt: string -> Option<int>, parseReal: string -> Option<real>)
    requires parseInt("null") == None && parseReal("null") == None
    ensures LoadFinancialData(map[], parseInt, parseReal) == FinancialData(0, 0, 0, 0.0, 0, 0, 0)
  {
  }

  /** A store holding the text of every field of `fin` loads as `fin`. */
  lemma LoadFinancialDataReads(items: map<string, string>, fin: FinancialData, showReal: real -> string,
                               parseInt: string -> Option<int>, parseReal: string -> Option<real>)
    requires forall f :: FinancialKey(f) in items && items[FinancialKey(f)] == FinancialValue(fin, f, showReal)
    requires ReadsBackIntegers(parseInt)
    requires parseReal(showReal(fin.savingsRate)) == Some(fin.savingsRate)
    ensures LoadFinancialData(items, parseInt, parseReal) == fin
  {
    assert items[FinancialKey(TotalSaved)] == IntToText(fin.totalSaved);
    assert items[FinancialKey(SavingsGoal)] == IntToText(fin.savingsGoal);
    assert items[FinancialKey(MonthlySpent)] == IntToText(fin.monthlySpent);
    assert items[FinancialKey(CreditScore)] == IntToText(fin.creditScore);
    assert items[FinancialKey(Investments)] == IntToText(fin.investments);
    assert items[FinancialKey(NetWorth)] == IntToText(fin.netWorth);
    assert items[FinancialKey(SavingsRate)] == showReal(fin.savingsRate);
  }

  /**
   * Saving then loading gives back the record, provided `parseFloat` reads back what `toString()`
   * wrote for this rate.
   */
  lemma FinancialRoundTrip(m: map<string, string>, fin: FinancialData, showReal: real -> string,
                           parseInt: string -> Option<int>, parseReal: string -> Option<real>)
    requires ReadsBackIntegers(parseInt)
    requires parseReal(showReal(fin.savingsRate)) == Some(fin.savingsRate)
    ensures LoadFinancialData(WriteAll(m, FinancialEntries(fin, showReal)), parseInt, parseReal) == fin
  {
    SaveFinancialDataWrites(m, fin, showReal);
    LoadFinancialDataReads(WriteAll(m, FinancialEntries(fin, showReal)), fin, showReal, parseInt, parseReal);
  }

  // ---------------------------------------------------------------- savings rate

  /** What `calculateSavingsRate()` returns: a computed percentage or the stored rate. */
  datatype SavingsRateShown = Computed(percent: real) | Stored(rate: real)

  /**
   * `calculateSavingsRate()`: with a positive income and positive spending, the share of the income
   * not spent, in percent; otherwise the stored rate.
   */
  function CalculateSavingsRate(u: UserProfile, fin: FinancialData): (r: SavingsRateShown)
    ensures r.Computed? <==> u.monthlyIncome > 0 && fin.monthlySpent > 0
    ensures r.Stored? ==> r.rate == fin.savingsRate
    ensures r.Computed? ==> r.percent * (u.monthlyIncome as real) == ((u.monthlyIncome - fin.monthlySpent) as real) * 100.0
    ensures r.Computed? ==> r.percent < 100.0
    ensures r.Computed? ==> (r.percent >= 0.0 <==> fin.monthlySpent <= u.monthlyIncome)
  {
    if u.monthlyIncome > 0 && fin.monthlySpent > 0 then
      var income := u.monthlyIncome as real;
      Computed((income - fin.monthlySpent as real) / income * 100.0)
    else
      Stored(fin.savingsRate)
  }

  // ---------------------------------------------------------------- storage

  /** The page's `localStorage`. */
  class LocalStorage {
    var items: map<string, string>

    constructor(items0: map<string, string>)
      ensures items == items0
    {
      items := items0;
    }

    /** `saveUserData()`: one `setItem` per field, in field order. */
    method SaveUserData(u: UserProfile)
      modifies this
      ensures items == WriteAll(old(items), UserEntries(u))
    {
      var i := 0;
      while i < |UserFields|
        invariant 0 <= i <= |UserFields|
        invariant items == WriteAll(old(items), UserEntries(u)[..i])
      {
        var f := UserFields[i];
        if f == MonthlyIncome {
          items := items["userMonthlyIncome" := IntToText(u.monthlyIncome)];
        } else {
          UserKeyFormula(f);
          items := items["user" + Capitalize(UserFieldName(f)) := UserValue(u, f)];
        }
        assert UserEntries(u)[..i + 1][..i] == UserEntries(u)[..i];
        i := i + 1;
      }
      assert UserEntries(u)[..|UserFields|] == UserEntries(u);
    }

    /** `saveFinancialData()`: one `setItem` per field, in field order. */
    method SaveFinancialData(fin: FinancialData, showReal: real -> string)
      modifies this
      ensures items == WriteAll(old(items), FinancialEntries(fin, showReal))
    {
      var i := 0;
      while i < |FinancialFields|
        invariant 0 <= i <= |FinancialFields|
        invariant items == WriteAll(old(items), FinancialEntries(fin, showReal)[..i])
      {
        var f := FinancialFields[i];
        items := items[FinancialKey(f) := FinancialValue(fin, f, showReal)];
        assert FinancialEntries(fin, showReal)[..i + 1][..i] == FinancialEntries(fin, showReal)[..i];
        i := i + 1;
      }
      assert FinancialEntries(fin, showReal)[..|FinancialFields|] == FinancialEntries(fin, showReal);
    }
  }
}
