/** The two category vocabularies of the entry form and the category key
    `df['Category'].str.extract(r'([\w\s]+)$')[0].str.lower().str.strip()`:
    the trailing run of word and space characters of the category, lowercased
    and trimmed, or no key at all when the category ends in anything else. */
module Categories {
  import opened Wrappers

  const INCOME_CATEGORIES: seq<string> :=
    ["💼 Bonus", "💰 Daily Earnings", "💰 Freelance", "💵 Other Income", "🏦 Salary", "💎 Savings"]

  const EXPENSE_CATEGORIES: seq<string> :=
    ["🔧 Car Repairs/Maintenance", "☕️ Entertainment", "🍽️ Food", "⛽ Gas", "🛍️ Shopping",
     "📺 Subscriptions", "🚗 Travel", "💡 Utilities", "📦 Other Expense"]

  /** `\w`, restricted to ASCII letters, digits and the underscore. */
  predicate IsWordChar(c: char) {
    ('a' <= c <= 'z') || ('A' <= c <= 'Z') || ('0' <= c <= '9') || c == '_'
  }

  /** `\s` and `str.isspace`, restricted to the ASCII range. */
  predicate IsSpace(c: char) {
    c == ' ' || ('\t' <= c <= '\r') || ('\U{1c}' <= c <= '\U{1f}')
  }

  predicate InRun(c: char) {
    IsWordChar(c) || IsSpace(c)
  }

  /** The text the pattern `([\w\s]+)$` captures, empty when it does not
      match: the longest suffix made only of word and space characters. */
  function TrailingRun(s: string): (r: string)
    ensures |r| <= |s| && r == s[|s| - |r|..]
    ensures forall i :: 0 <= i < |r| ==> InRun(r[i])
    ensures |r| < |s| ==> !InRun(s[|s| - |r| - 1])
  {
    if s == [] || !InRun(s[|s| - 1]) then []
    else TrailingRun(s[..|s| - 1]) + [s[|s| - 1]]
  }

  function LowerChar(c: char): char {
    if 'A' <= c <= 'Z' then (c as int + 32) as char else c
  }

  /** `str.lower` on the ASCII letters (the only letters a run can hold). */
  function Lower(s: string): (r: string)
    ensures |r| == |s|
    ensures forall i :: 0 <= i < |s| ==> r[i] == LowerChar(s[i])
  {
    if s == [] then [] else [LowerChar(s[0])] + Lower(s[1..])
  }

  function TrimStart(s: string): (r: string)
    ensures |r| <= |s| && r == s[|s| - |r|..]
    ensures forall i :: 0 <= i < |s| - |r| ==> IsSpace(s[i])
    ensures r == [] || !IsSpace(r[0])
  {
    if s != [] && IsSpace(s[0]) then TrimStart(s[1..]) else s
  }

  function TrimEnd(s: string): (r: string)
    ensures |r| <= |s| && r == s[..|r|]
    ensures forall i :: |r| <= i < |s| ==> IsSpace(s[i])
    ensures r == [] || !IsSpace(r[|r| - 1])
  {
    if s != [] && IsSpace(s[|s| - 1]) then TrimEnd(s[..|s| - 1]) else s
  }

  /** `r` is `s[i..i + |r|]` and everything of `s` outside that slice is
      whitespace. */
  predicate TrimmedTo(s: string, i: int, r: string) {
    && 0 <= i <= |s| - |r|
    && r == s[i..i + |r|]
    && (forall j :: 0 <= j < i ==> IsSpace(s[j]))
    && (forall j :: i + |r| <= j < |s| ==> IsSpace(s[j]))
  }

  /** `str.strip`: the slice of `s` left after dropping the whitespace at both
      ends; it neither starts nor ends with whitespace. */
  function Strip(s: string): (r: string)
    ensures exists i :: TrimmedTo(s, i, r)
    ensures r == [] || (!IsSpace(r[0]) && !IsSpace(r[|r| - 1]))
  {
    var t := TrimStart(s);
    var r := TrimEnd(t);
    TrimmedBoth(s, t, r);
    r
  }

  /** Trimming the start and then the end leaves a slice of the original
      with only whitespace around it. */
  lemma TrimmedBoth(s: string, t: string, r: string)
    requires |t| <= |s| && t == s[|s| - |t|..]
    requires forall i :: 0 <= i < |s| - |t| ==> IsSpace(s[i])
    requires |r| <= |t| && r == t[..|r|]
    requires forall i :: |r| <= i < |t| ==> IsSpace(t[i])
    ensures TrimmedTo(s, |s| - |t|, r)
  {
    var i := |s| - |t|;
    assert s[i..][..|r|] == s[i..i + |r|];
    forall j | i + |r| <= j < |s|
      ensures IsSpace(s[j])
    {
      assert s[j] == t[j - i];
    }
  }

  /** The category key; `None` stands for the missing value pandas gives a
      category whose last character is neither a word nor a space character. */
  function CleanCategory(category: string): (key: Option<string>)
    ensures key.None? <==> category == [] || !InRun(category[|category| - 1])
  {
    var run := TrailingRun(category);
    if run == [] then None else Some(Strip(Lower(run)))
  }

  /** A key holds only lowercase word characters and inner spaces. */
  predicate IsKey(k: string) {
    && (forall i :: 0 <= i < |k| ==> InRun(k[i]) && !('A' <= k[i] <= 'Z'))
    && (k == [] || (!IsSpace(k[0]) && !IsSpace(k[|k| - 1])))
  }

  lemma CleanCategoryIsKey(category: string)
    requires CleanCategory(category).Some?
    ensures IsKey(CleanCategory(category).value)
  {
    var run := TrailingRun(category);
    var low := Lower(run);
    var k := Strip(low);
    assert CleanCategory(category).value == k;
    forall j | 0 <= j < |low|
      ensures InRun(low[j]) && !('A' <= low[j] <= 'Z')
    {
      LowerCharInRun(run[j]);
    }
    var i :| TrimmedTo(low, i, k);
    SliceIsKey(low, i, k);
  }

  lemma SliceIsKey(s: string, i: int, k: string)
    requires forall j :: 0 <= j < |s| ==> InRun(s[j]) && !('A' <= s[j] <= 'Z')
    requires TrimmedTo(s, i, k)
    requires k == [] || (!IsSpace(k[0]) && !IsSpace(k[|k| - 1]))
    ensures IsKey(k)
  {
    assert forall j :: 0 <= j < |k| ==> k[j] == s[i + j];
  }

  lemma LowerCharInRun(c: char)
    requires InRun(c)
    ensures InRun(LowerChar(c)) && !('A' <= LowerChar(c) <= 'Z')
  {
  }

  /** Cleaning a non-empty key gives the key back. */
  lemma {:induction false} CleanCategoryIdempotent(k: string)
    requires IsKey(k) && k != []
    ensures CleanCategory(k) == Some(k)
  {
    TrailingRunOfRun(k);
    assert Lower(k) == k;
    TrimStartOfTrimmed(k);
    TrimEndOfTrimmed(k);
    assert Strip(k) == TrimEnd(TrimStart(k)) == k;
  }

  lemma TrailingRunOfRun(s: string)
    requires forall i :: 0 <= i < |s| ==> InRun(s[i])
    ensures TrailingRun(s) == s
  {
  }

  lemma TrimStartOfTrimmed(s: string)
    requires s == [] || !IsSpace(s[0])
    ensures TrimStart(s) == s
  {
  }

  lemma TrimEndOfTrimmed(s: string)
    requires s == [] || !IsSpace(s[|s| - 1])
    ensures TrimEnd(s) == s
  {
  }

  /** The key of a category label whose last character outside a run is at
      position `p`, from the lowercased run. */
  lemma CleanAfter(category: string, p: nat, lowered: string, key: string)
    requires p + 1 < |category| && !InRun(category[p])
    requires forall i :: p < i < |category| ==> InRun(category[i])
    requires |lowered| == |category| - p - 1
    requires forall i :: p < i < |category| ==> LowerChar(category[i]) == lowered[i - p - 1]
    requires lowered == key || lowered == " " + key
    requires key != [] && !IsSpace(key[0]) && !IsSpace(key[|key| - 1])
    ensures CleanCategory(category) == Some(key)
  {
    var run := TrailingRun(category);
    assert run == category[p + 1..];
    assert Lower(run) == lowered;
    TrimStartOfTrimmed(key);
    TrimEndOfTrimmed(key);
    if lowered != key {
      assert lowered[1..] == key;
    }
  }

  const INCOME_KEYS: seq<string> := ["bonus", "daily earnings", "freelance", "other income", "salary", "savings"]

  const EXPENSE_KEYS: seq<string> :=
    ["maintenance", "entertainment", "food", "gas", "shopping", "subscriptions", "travel", "utilities", "other expense"]

  lemma KeyOfBonus(c: string)
    requires c == "💼 Bonus"
    ensures CleanCategory(c) == Some("bonus")
  {
    CleanAfter(c, 0, " bonus", "bonus");
  }

  lemma KeyOfDailyEarnings(c: string)
    requires c == "💰 Daily Earnings"
    ensures CleanCategory(c) == Some("daily earnings")
  {
    CleanAfter(c, 0, " daily earnings", "daily earnings");
  }

  lemma KeyOfFreelance(c: string)
    requires c == "💰 Freelance"
    ensures CleanCategory(c) == Some("freelance")
  {
    CleanAfter(c, 0, " freelance", "freelance");
  }

  lemma KeyOfOtherIncome(c: string)
    requires c == "💵 Other Income"
    ensures CleanCategory(c) == Some("other income")
  {
    CleanAfter(c, 0, " other income", "other income");
  }

  lemma KeyOfSalary(c: string)
    requires c == "🏦 Salary"
    ensures CleanCategory(c) == Some("salary")
  {
    CleanAfter(c, 0, " salary", "salary");
  }

  lemma KeyOfSavings(c: string)
    requires c == "💎 Savings"
    ensures CleanCategory(c) == Some("savings")
  {
    CleanAfter(c, 0, " savings", "savings");
  }

  /** The keys of the income vocabulary: the label without its emoji, in lower case. */
  lemma IncomeCategoryKeys(k: int)
    requires 0 <= k < |INCOME_CATEGORIES|
    ensures CleanCategory(INCOME_CATEGORIES[k]) == Some(INCOME_KEYS[k])
  {
    var c := INCOME_CATEGORIES[k];
    if k == 0 {
      KeyOfBonus(c);
    } else if k == 1 {
      KeyOfDailyEarnings(c);
    } else if k == 2 {
      KeyOfFreelance(c);
    } else if k == 3 {
      KeyOfOtherIncome(c);
    } else if k == 4 {
      KeyOfSalary(c);
    } else {
      KeyOfSavings(c);
    }
  }

  lemma KeyOfMaintenance(c: string)
    requires c == "🔧 Car Repairs/Maintenance"
    ensures CleanCategory(c) == Some("maintenance")
  {
    CleanAfter(c, 13, "maintenance", "maintenance");
  }

  lemma KeyOfEntertainment(c: string)
    requires c == "☕️ Entertainment"
    ensures CleanCategory(c) == Some("entertainment")
  {
    CleanAfter(c, 1, " entertainment", "entertainment");
  }

  lemma KeyOfFood(c: string)
    requires c == "🍽️ Food"
    ensures CleanCategory(c) == Some("food")
  {
    CleanAfter(c, 1, " food", "food");
  }

  lemma KeyOfGas(c: string)
    requires c == "⛽ Gas"
    ensures CleanCategory(c) == Some("gas")
  {
    CleanAfter(c, 0, " gas", "gas");
  }

  lemma KeyOfShopping(c: string)
    requires c == "🛍️ Shopping"
    ensures CleanCategory(c) == Some("shopping")
  {
    CleanAfter(c, 1, " shopping", "shopping");
  }

  lemma KeyOfSubscriptions(c: string)
    requires c == "📺 Subscriptions"
    ensures CleanCategory(c) == Some("subscriptions")
  {
    CleanAfter(c, 0, " subscriptions", "subscriptions");
  }

  lemma KeyOfTravel(c: string)
    requires c == "🚗 Travel"
    ensures CleanCategory(c) == Some("travel")
  {
    CleanAfter(c, 0, " travel", "travel");
  }

  lemma KeyOfUtilities(c: string)
    requires c == "💡 Utilities"
    ensures CleanCategory(c) == Some("utilities")
  {
    CleanAfter(c, 0, " utilities", "utilities");
  }

  lemma KeyOfOtherExpense(c: string)
    requires c == "📦 Other Expense"
    ensures CleanCategory(c) == Some("other expense")
  {
    CleanAfter(c, 0, " other expense", "other expense");
  }

  /** The keys of the expense vocabulary; in "Car Repairs/Maintenance" the `/`
      ends the run, so only "maintenance" is left. */
  lemma ExpenseCategoryKeys(k: int)
    requires 0 <= k < |EXPENSE_CATEGORIES|
    ensures CleanCategory(EXPENSE_CATEGORIES[k]) == Some(EXPENSE_KEYS[k])
  {
    var c := EXPENSE_CATEGORIES[k];
    if k == 0 {
      KeyOfMaintenance(c);
    } else if k == 1 {
      KeyOfEntertainment(c);
    } else if k == 2 {
      KeyOfFood(c);
    } else if k == 3 {
      KeyOfGas(c);
    } else if k == 4 {
      KeyOfShopping(c);
    } else if k == 5 {
      KeyOfSubscriptions(c);
    } else if k == 6 {
      KeyOfTravel(c);
    } else if k == 7 {
      KeyOfUtilities(c);
    } else {
      KeyOfOtherExpense(c);
    }
  }
}
