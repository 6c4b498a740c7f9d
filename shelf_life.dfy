/** The shelf-life policy: how many days a fruit keeps, looked up in a fixed
    table by the fruit's lower-cased name, with a default for any other name. */
module ShelfLife {

  /** Days assumed for a name the table does not list. */
  const DefaultDays := 5

  /** The fixed policy table; its keys are lower case. */
  const ExpiryTable: map<string, int> := map[
    "apple" := 7,
    "banana" := 3,
    "orange" := 10,
    "strawberry" := 2,
    "pomegranate" := 10
  ]

  predicate IsUpper(c: char) {
    'A' <= c <= 'Z'
  }

  /** Lower-cases one ASCII letter and leaves every other character alone. */
  function LowerChar(c: char): (l: char)
    ensures !IsUpper(l)
    ensures IsUpper(c) <==> l != c
  {
    if IsUpper(c) then (c as int - 'A' as int + 'a' as int) as char else c
  }

  /** The string's lower-case form, character by character. */
  function Lower(s: string): (r: string)
    ensures |r| == |s|
    ensures forall i :: 0 <= i < |s| ==> r[i] == LowerChar(s[i])
  {
    if s == [] then [] else [LowerChar(s[0])] + Lower(s[1..])
  }

  /** The shelf life, in days, of the fruit with the given name. */
  function ExpiryDays(fruitName: string): (days: int)
    ensures 2 <= days <= 10
    ensures days == DefaultDays <==> Lower(fruitName) !in ExpiryTable
  {
    var key := Lower(fruitName);
    if key in ExpiryTable then ExpiryTable[key] else DefaultDays
  }

  /** Lower-casing twice is lower-casing once. */
  lemma LowerIdempotent(s: string)
    ensures Lower(Lower(s)) == Lower(s)
  {
  }

  /** Names that differ only in the case of their letters get the same shelf life. */
  lemma ExpiryDaysCaseInsensitive(a: string, b: string)
    requires |a| == |b|
    requires forall i :: 0 <= i < |a| ==> LowerChar(a[i]) == LowerChar(b[i])
    ensures ExpiryDays(a) == ExpiryDays(b)
  {
    assert Lower(a) == Lower(b);
  }

  /** Looking up a name and looking up its lower-case form agree. */
  lemma ExpiryDaysOfLower(s: string)
    ensures ExpiryDays(Lower(s)) == ExpiryDays(s)
  {
    LowerIdempotent(s);
  }

  /** Each listed fruit, named in lower case, gets its table entry. */
  lemma ExpiryDaysOfListedFruit(name: string)
    requires name in ExpiryTable
    ensures ExpiryDays(name) == ExpiryTable[name]
  {
    assert name in {"apple", "banana", "orange", "strawberry", "pomegranate"};
    if name == "apple" {
      LowerOfLowerCase("apple");
    } else if name == "banana" {
      LowerOfLowerCase("banana");
    } else if name == "orange" {
      LowerOfLowerCase("orange");
    } else if name == "strawberry" {
      LowerOfLowerCase("strawberry");
    } else {
      LowerOfLowerCase("pomegranate");
    }
  }

  /** A capitalised name finds its lower-case entry; an unlisted name gets the default. */
  lemma ExpiryDaysOfOtherNames()
    ensures ExpiryDays("Banana") == 3
    ensures ExpiryDays("APPLE") == 7
    ensures ExpiryDays("kiwi") == DefaultDays
  {
    assert Lower("Banana") == "banana";
    assert Lower("APPLE") == "apple";
    LowerOfLowerCase("kiwi");
  }

  /** A string without upper-case letters is its own lower-case form. */
  lemma LowerOfLowerCase(s: string)
    requires forall i :: 0 <= i < |s| ==> !IsUpper(s[i])
    ensures Lower(s) == s
  {
  }
}
