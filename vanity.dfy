/** Members as the platform reports them, the vanity marker, and the test
    that decides whether a member shows the marker in a custom status. */
module Vanity {

  datatype Option<T> = None | Some(value: T)

  type RoleId = int

  /** Presence levels the platform reports for a member. */
  datatype Status = Online | Idle | Dnd | Offline | Invisible

  /** A member activity: only a custom status carries text worth inspecting,
      and that text may be missing. */
  datatype Activity = Custom(name: Option<string>) | Other

  /** One roster entry: its mention text, the bot flag, presence,
      activities and the ids of the roles it holds. */
  datatype Member = Member(mention: string, bot: bool, status: Status,
                           activities: seq<Activity>, roles: set<RoleId>)

  /** The fixed, lower-case marker searched for in status texts. */
  const Marker: string := ".gg/moggs"

  /** The presence levels that count as being around. */
  predicate Active(s: Status) {
    s == Online || s == Idle || s == Dnd
  }

  function LowerChar(c: char): char {
    if 'A' <= c <= 'Z' then (c as int - 'A' as int + 'a' as int) as char else c
  }

  /** Lower-casing, letter by letter. */
  function Lower(s: string): string {
    seq(|s|, i requires 0 <= i < |s| => LowerChar(s[i]))
  }

  /** Substring containment: `p` occurs somewhere in `s`. */
  predicate Contains(s: string, p: string)
    decreases |s|
  {
    p <= s || (|s| > 0 && Contains(s[1..], p))
  }

  /** Containment holds exactly when `p` starts at some position of `s`. */
  lemma {:induction false} ContainsIff(s: string, p: string)
    ensures Contains(s, p) <==> exists k :: 0 <= k <= |s| && p <= s[k..]
  {
    if p <= s {
      assert s[0..] == s;
    } else if |s| > 0 {
      ContainsIff(s[1..], p);
      if Contains(s[1..], p) {
        var k :| 0 <= k <= |s[1..]| && p <= s[1..][k..];
        assert s[1..][k..] == s[k + 1..];
      }
      if k :| 0 <= k <= |s| && p <= s[k..] {
        assert k != 0;
        assert s[1..][k - 1..] == s[k..];
      }
    } else {
      forall k | 0 <= k <= |s| ensures !(p <= s[k..]) {
        assert s[k..] == s;
      }
    }
  }

  /** One activity shows the marker: a custom status with non-empty text
      whose lower-cased form contains the marker. */
  predicate Shows(a: Activity) {
    a.Custom? && a.name.Some? && a.name.value != [] && Contains(Lower(a.name.value), Marker)
  }

  /** A member has the vanity when some activity shows the marker. */
  predicate HasVanity(acts: seq<Activity>) {
    exists i :: 0 <= i < |acts| && Shows(acts[i])
  }

  /** The test `vanitymembers` applies: around and showing the marker.
      Unlike the scan, it does not skip bots. */
  predicate Eligible(m: Member) {
    Active(m.status) && HasVanity(m.activities)
  }

  /** The inner loop over a member's activities, stopping at the first
      custom status that shows the marker. */
  method DetectVanity(acts: seq<Activity>) returns (found: bool)
    ensures found <==> HasVanity(acts)
  {
    found := false;
    for j := 0 to |acts|
      invariant !found
      invariant forall i :: 0 <= i < j ==> !Shows(acts[i])
    {
      var a := acts[j];
      if a.Custom? && a.name.Some? && a.name.value != [] {
        if Contains(Lower(a.name.value), Marker) {
          found := true;
          break;
        }
      }
    }
  }

  /** Detection ignores letter case: a status written in capitals is found. */
  lemma UpperCaseDetected()
    ensures Shows(Custom(Some("Check out MY.GG/MOGGS page")))
  {
    var t := "Check out MY.GG/MOGGS page";
    assert Lower(t)[12..21] == Marker;
    assert Marker <= Lower(t)[12..];
    ContainsIff(Lower(t), Marker);
  }

  /** A status without the marker is not detected. */
  lemma MarkerlessNotDetected()
    ensures !Shows(Custom(Some("Check out my page")))
  {
    var u := "Check out my page";
    ContainsIff(Lower(u), Marker);
    var l := Lower(u);
    assert forall k :: 0 <= k < |l| ==> l[k] != '.';
    forall k | 0 <= k <= |l| ensures !(Marker <= l[k..]) {
      if k < |l| {
        assert l[k..][0] == l[k];
      }
    }
  }

  /** Lower-casing twice is lower-casing once. */
  lemma LowerIdempotent(s: string)
    ensures Lower(Lower(s)) == Lower(s)
  {
    assert forall i :: 0 <= i < |s| ==> LowerChar(LowerChar(s[i])) == LowerChar(s[i]);
  }

  /** The test does not depend on letter case: a status shows the marker
      exactly when its lower-cased text does. */
  lemma ShowsCaseInsensitive(t: string)
    ensures Shows(Custom(Some(t))) <==> Shows(Custom(Some(Lower(t))))
  {
    LowerIdempotent(t);
  }

  /** The members `vanitymembers` lists, in roster order. */
  function Qualifying(ms: seq<Member>): (r: seq<Member>)
    ensures |r| <= |ms|
    ensures forall m :: m in r ==> m in ms && Eligible(m)
  {
    if ms == [] then []
    else Qualifying(ms[..|ms| - 1]) + (if Eligible(ms[|ms| - 1]) then [ms[|ms| - 1]] else [])
  }

  /** Being listed is exactly being on the roster and eligible. */
  lemma {:induction false} QualifyingIff(ms: seq<Member>, m: Member)
    ensures m in Qualifying(ms) <==> m in ms && Eligible(m)
  {
    if ms != [] {
      var init := ms[..|ms| - 1];
      QualifyingIff(init, m);
      assert ms == init + [ms[|ms| - 1]];
    }
  }

  /** The list is empty exactly when no roster entry is eligible. */
  lemma {:induction false} QualifyingEmpty(ms: seq<Member>)
    ensures Qualifying(ms) == [] <==> forall i :: 0 <= i < |ms| ==> !Eligible(ms[i])
  {
    if ms != [] {
      var init := ms[..|ms| - 1];
      QualifyingEmpty(init);
      assert forall i :: 0 <= i < |init| ==> init[i] == ms[i];
    }
  }

  /** Listing keeps roster order: the list of a roster split in two is the
      list of the first part followed by the list of the second. */
  lemma {:induction false} QualifyingAppend(a: seq<Member>, b: seq<Member>)
    ensures Qualifying(a + b) == Qualifying(a) + Qualifying(b)
  {
    if b == [] {
      assert a + b == a;
    } else {
      var init, last := b[..|b| - 1], b[|b| - 1];
      var tail := if Eligible(last) then [last] else [];
      QualifyingAppend(a, init);
      assert (a + b)[..|a + b| - 1] == a + init;
      assert (a + b)[|a + b| - 1] == last;
      assert Qualifying(a + b) == Qualifying(a + init) + tail;
      assert Qualifying(b) == Qualifying(init) + tail;
      assert Qualifying(a) + Qualifying(init) + tail == Qualifying(a) + (Qualifying(init) + tail);
    }
  }

  function Mentions(ms: seq<Member>): seq<string> {
    seq(|ms|, i requires 0 <= i < |ms| => ms[i].mention)
  }
}
