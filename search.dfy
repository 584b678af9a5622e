/** The user search box: the options offered for what has been typed, and the query set when
    one is chosen. */
module Search {
  import opened Wrappers
  import opened Text

  datatype UserOption = UserOption(name: string, email: string)

  /** The options whose lower-cased name contains `needle`, in their order. */
  function Matching(options: seq<UserOption>, needle: string): (r: seq<UserOption>)
    ensures forall o :: o in r <==> o in options && Contains(Lower(o.name), needle)
    ensures |r| <= |options|
    decreases |options|
  {
    if options == [] then []
    else
      (if Includes(Lower(options[0].name), needle) then [options[0]] else []) + Matching(options[1..], needle)
  }

  /** `filterOptions`: nothing for an empty input, else the options whose name contains the
      input, ignoring case. */
  function FilterOptions(options: seq<UserOption>, inputValue: string): (r: seq<UserOption>)
    ensures inputValue == [] ==> r == []
    ensures inputValue != [] ==> forall o :: o in r <==> o in options && Contains(Lower(o.name), Lower(inputValue))
  {
    if |inputValue| == 0 then [] else Matching(options, Lower(inputValue))
  }

  /** `a` is `b` with some elements left out. */
  predicate SubsequenceOf<T(==)>(a: seq<T>, b: seq<T>)
    decreases |b|
  {
    if a == [] then true
    else if b == [] then false
    else if a[0] == b[0] then SubsequenceOf(a[1..], b[1..])
    else SubsequenceOf(a, b[1..])
  }

  /** The offered options keep the order of the list. */
  lemma {:induction false} MatchingKeepsOrder(options: seq<UserOption>, needle: string)
    ensures SubsequenceOf(Matching(options, needle), options)
    decreases |options|
  {
    if options != [] {
      MatchingKeepsOrder(options[1..], needle);
      var rest := Matching(options[1..], needle);
      if Includes(Lower(options[0].name), needle) {
        assert ([options[0]] + rest)[1..] == rest;
      } else {
        assert [] + rest == rest;
      }
    }
  }

  lemma FilterKeepsOrder(options: seq<UserOption>, inputValue: string)
    ensures SubsequenceOf(FilterOptions(options, inputValue), options)
  {
    if inputValue != [] {
      MatchingKeepsOrder(options, Lower(inputValue));
    }
  }

  lemma LowerIdempotent(s: string)
    ensures Lower(Lower(s)) == Lower(s)
  {
  }

  /** Case does not matter: typing in capitals offers the same options. */
  lemma FilterIgnoresCase(options: seq<UserOption>, inputValue: string)
    ensures FilterOptions(options, Lower(inputValue)) == FilterOptions(options, inputValue)
  {
    LowerIdempotent(inputValue);
  }

  /** The Autocomplete's `onChange`: a chosen option sets the query to its name, clearing the
      box (`null`) leaves the query. */
  function OnChange(searchQuery: string, value: Option<UserOption>): (q: string)
    ensures value.None? ==> q == searchQuery
    ensures value.Some? ==> q == value.value.name
  {
    if value.Some? then value.value.name else searchQuery
  }

  /** Typing "a" offers "Al" and not "Bo". */
  lemma FilterExample()
    ensures FilterOptions([UserOption("Al", "al@x"), UserOption("Bo", "bo@x")], "a") == [UserOption("Al", "al@x")]
  {
    assert Lower("a") == "a" && Lower("Al") == "al" && Lower("Bo") == "bo";
    assert OccursAt("al", "a", 0);
    forall i: nat
      ensures !OccursAt("bo", "a", i)
    {
      if i < 2 {
        assert "bo"[i] != 'a';
        assert "bo"[i..i + 1][0] == "bo"[i];
      }
    }
  }
}
