/** A race registry mapping runners' emails to speed categories
    (Labs/lab1/lab1.py). The Python dictionary keeps insertion order; the model
    keeps that order in `order` beside the map `runner`. */
module RaceRegistry {
  import opened Wrappers

  /** The emails of `keys`, in order, that `runner` maps to `category`. */
  function Matching(keys: seq<string>, runner: map<string, string>, category: string): (r: seq<string>)
    ensures forall e :: e in r <==> e in keys && e in runner && runner[e] == category
    ensures |r| <= |keys|
  {
    if keys == [] then []
    else
      var rest := Matching(keys[..|keys| - 1], runner, category);
      var last := keys[|keys| - 1];
      assert keys == keys[..|keys| - 1] + [last];
      if last in runner && runner[last] == category then rest + [last] else rest
  }

  /** The position of `e` in `s`. */
  function IndexOf(s: seq<string>, e: string): (k: nat)
    requires e in s
    ensures k < |s| && s[k] == e && e !in s[..k]
  {
    if s[0] == e then 0 else 1 + IndexOf(s[1..], e)
  }

  /** `Matching` lists its emails without repeats and in the order they have
      in a repeat-free key list. */
  lemma {:induction false} MatchingKeepsOrder(keys: seq<string>, runner: map<string, string>, category: string)
    requires Distinct(keys)
    ensures var r := Matching(keys, runner, category);
      Distinct(r) && forall i, j :: 0 <= i < j < |r| ==> IndexOf(keys, r[i]) < IndexOf(keys, r[j])
  {
    if keys != [] {
      var init := keys[..|keys| - 1];
      var last := keys[|keys| - 1];
      MatchingKeepsOrder(init, runner, category);
      var rest := Matching(init, runner, category);
      assert keys == init + [last];
      forall e | e in init
        ensures IndexOf(keys, e) == IndexOf(init, e)
      {
        IndexOfPrefix(init, [last], e);
      }
      assert last !in init;
      assert keys[IndexOf(keys, last)] == last;
      assert IndexOf(keys, last) == |keys| - 1;
    }
  }

  lemma {:induction false} IndexOfPrefix(s: seq<string>, t: seq<string>, e: string)
    requires e in s
    ensures IndexOf(s + t, e) == IndexOf(s, e)
  {
    if s[0] != e {
      assert (s + t)[1..] == s[1..] + t;
      IndexOfPrefix(s[1..], t, e);
    }
  }

  ghost predicate Distinct(s: seq<string>) {
    forall i, j :: 0 <= i < j < |s| ==> s[i] != s[j]
  }

  class Registry {
    /** The comma-separated string of every email ever registered. */
    var email: string
    /** The runners' categories (the Python dictionary's contents). */
    var runner: map<string, string>
    /** The dictionary's key order: first registration first. */
    var order: seq<string>

    ghost predicate Valid()
      reads this
    {
      Distinct(order) && (forall e :: e in order <==> e in runner)
    }

    /** `RaceRegistry.__init__`: one runner, and the email string is that email. */
    constructor (email: string, category: string)
      ensures Valid()
      ensures this.email == email && runner == map[email := category] && order == [email]
    {
      this.email := email;
      runner := map[email := category];
      order := [email];
    }

    /** `register`: adds the runner or overwrites its category; an overwrite
        keeps the runner's place. The email string always grows, even on a
        repeat registration. */
    method Register(email: string, category: string)
      requires Valid()
      modifies this
      ensures Valid()
      ensures this.email == old(this.email) + ", " + email
      ensures runner == old(runner)[email := category]
      ensures order == if email in old(runner) then old(order) else old(order) + [email]
    {
      this.email := this.email + ", " + email;
      if email !in runner {
        order := order + [email];
      }
      runner := runner[email := category];
    }

    /** `email_to_category`: the registered category, or KeyError. */
    function EmailToCategory(email: string): (r: Result<string>)
      reads this
      ensures r.Ok? <==> email in runner
      ensures r.Ok? ==> r.value == runner[email]
      ensures r.Err? ==> r.error == KeyError
    {
      if email in runner then Ok(runner[email]) else Err(KeyError)
    }

    /** `category_to_email`: the emails registered in `category`, in first
        registration order. */
    method CategoryToEmail(category: string) returns (result: seq<string>)
      requires Valid()
      ensures result == Matching(order, runner, category)
      ensures forall e :: e in result <==> e in runner && runner[e] == category
      ensures Distinct(result)
      ensures forall i, j :: 0 <= i < j < |result| ==> IndexOf(order, result[i]) < IndexOf(order, result[j])
    {
      result := [];
      var i := 0;
      while i < |order|
        invariant 0 <= i <= |order|
        invariant result == Matching(order[..i], runner, category)
      {
        assert order[..i + 1][..i] == order[..i];
        if runner[order[i]] == category {
          result := result + [order[i]];
        }
        i := i + 1;
      }
      assert order[..i] == order;
      MatchingKeepsOrder(order, runner, category);
    }

    /** `__eq__`: registries are equal when their runner maps are, whatever
        their email strings or key orders: exactly when every email looks up
        to the same category or the same KeyError in both. */
    predicate Equal(other: Registry)
      reads this, other
      ensures Equal(other) <==> forall e :: EmailToCategory(e) == other.EmailToCategory(e)
    {
      assert (forall e :: EmailToCategory(e) == other.EmailToCategory(e)) ==> runner == other.runner by {
        if forall e :: EmailToCategory(e) == other.EmailToCategory(e) {
          assert forall e :: e in runner <==> EmailToCategory(e).Ok?;
          assert forall e :: e in other.runner <==> other.EmailToCategory(e).Ok?;
          assert runner.Keys == other.runner.Keys;
        }
      }
      runner == other.runner
    }
  }

  /** A repeat registration leaves a registry equal to one registered once,
      while its email string has grown (the doctest scenario of lines 44-51). */
  method RepeatRegistration() returns (equal: bool, sameEmail: bool)
    ensures equal && !sameEmail
  {
    var a := new Registry("ann@mail.utoronto.ca", "under 20 min");
    a.Register("ann@mail.utoronto.ca", "under 20 min");
    var b := new Registry("ann@mail.utoronto.ca", "under 20 min");
    equal := a.Equal(b);
    sameEmail := a.email == b.email;
    assert |a.email| > |b.email|;
  }

  /** The doctests of `__eq__`: two fresh registries of the same runner are
      equal, and of different runners are not. */
  method EqualDoctest() returns (same: bool, different: bool)
    ensures same && !different
  {
    var jack := new Registry("jack@mail.toronto.ca", "under 20 min");
    var jack2 := new Registry("jack@mail.toronto.ca", "under 20 min");
    var anna := new Registry("anna@mail.toronto.ca", "under 20 min");
    same := jack.Equal(jack2);
    different := anna.Equal(jack);
    assert "anna@mail.toronto.ca" !in jack.runner;
  }

  /** The doctest of `category_to_email`: both runners in registration order. */
  method CategoryDoctest() returns (emails: seq<string>)
    ensures emails == ["ann@mail.utoronto.ca", "jack@mail.utoronto.ca"]
  {
    var r := new Registry("ann@mail.utoronto.ca", "under 20 min");
    r.Register("jack@mail.utoronto.ca", "under 20 min");
    emails := r.CategoryToEmail("under 20 min");
    assert r.order == ["ann@mail.utoronto.ca", "jack@mail.utoronto.ca"];
    assert r.order[..1] == ["ann@mail.utoronto.ca"];
    assert r.order[..0] == [];
  }
}
