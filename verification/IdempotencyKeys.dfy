/** The idempotency key of a change event (crates/config-shared/src/validation.rs: `derive_idempotency_key`). */
module IdempotencyKeys {
  /** What a key is made of: the host, the path, the hashes of the transition and the minute. */
  datatype Transition = Transition(host: string, path: string, previous: string, current: string, minute: string)

  /** The fields that never hold the separator. The path may hold it. */
  predicate Separable(t: Transition) {
    ':' !in t.host && ':' !in t.previous && ':' !in t.current && ':' !in t.minute
  }

  function DeriveKey(t: Transition): (key: string)
    ensures key != ""
  {
    t.host + ":" + t.path + ":" + t.previous + ":" + t.current + ":" + t.minute
  }

  lemma FirstFieldUnique(a: string, x: string, b: string, y: string)
    requires ':' !in a && ':' !in b && a + ":" + x == b + ":" + y
    ensures a == b && x == y
  {
    var s := a + ":" + x;
    assert s == b + ":" + y;
    assert s[|a|] == ':' && s[|b|] == ':';
    assert forall k :: 0 <= k < |a| ==> s[k] == a[k] && s[k] in a;
    assert forall k :: 0 <= k < |b| ==> s[k] == b[k] && s[k] in b;
    assert s[..|a|] == a && s[..|b|] == b;
    assert s[|a| + 1..] == x && s[|b| + 1..] == y;
  }

  lemma LastFieldUnique(x: string, a: string, y: string, b: string)
    requires ':' !in a && ':' !in b && x + ":" + a == y + ":" + b
    ensures a == b && x == y
  {
    var s := x + ":" + a;
    assert s == y + ":" + b;
    assert s[|x|] == ':' && s[|y|] == ':';
    assert forall k :: |x| < k < |s| ==> s[k] == a[k - |x| - 1] && s[k] in a;
    assert forall k :: |y| < k < |s| ==> s[k] == b[k - |y| - 1] && s[k] in b;
    assert s[..|x|] == x && s[..|y|] == y;
    assert s[|x| + 1..] == a && s[|y| + 1..] == b;
  }

  /** Two transitions have the same key if and only if they are the same, whatever their paths hold. */
  lemma KeyIsInjective(a: Transition, b: Transition)
    requires Separable(a) && Separable(b)
    ensures DeriveKey(a) == DeriveKey(b) <==> a == b
  {
    if DeriveKey(a) == DeriveKey(b) {
      var a1, b1 := a.host + ":" + a.path, b.host + ":" + b.path;
      var a2, b2 := a1 + ":" + a.previous, b1 + ":" + b.previous;
      var a3, b3 := a2 + ":" + a.current, b2 + ":" + b.current;
      LastFieldUnique(a3, a.minute, b3, b.minute);
      LastFieldUnique(a2, a.current, b2, b.current);
      LastFieldUnique(a1, a.previous, b1, b.previous);
      FirstFieldUnique(a.host, a.path, b.host, b.path);
    }
  }

  // ----- reading a key back -----------------------------------------------------------------------------

  /** The text before the first colon, and the text after it. */
  function CutFirst(text: string): (string, string) {
    if text == "" then ("", "")
    else if text[0] == ':' then ("", text[1..])
    else
      var (field, rest) := CutFirst(text[1..]);
      ([text[0]] + field, rest)
  }

  /** The text before the last colon, and the text after it. */
  function CutLast(text: string): (string, string) {
    if text == "" then ("", "")
    else if text[|text| - 1] == ':' then (text[..|text| - 1], "")
    else
      var (rest, field) := CutLast(text[..|text| - 1]);
      (rest, field + [text[|text| - 1]])
  }

  lemma {:induction false} CutFirstField(field: string, rest: string)
    requires ':' !in field
    ensures CutFirst(field + ":" + rest) == (field, rest)
  {
    var text := field + ":" + rest;
    if field == "" {
      assert text == ":" + rest && text[1..] == rest;
    } else {
      assert text[0] == field[0] && text[1..] == field[1..] + ":" + rest;
      CutFirstField(field[1..], rest);
      assert [field[0]] + field[1..] == field;
    }
  }

  lemma {:induction false} CutLastField(rest: string, field: string)
    requires ':' !in field
    ensures CutLast(rest + ":" + field) == (rest, field)
    decreases |field|
  {
    var text := rest + ":" + field;
    if field == "" {
      assert text == rest + ":" && text[..|text| - 1] == rest;
    } else {
      var n := |field| - 1;
      assert text[|text| - 1] == field[n] && text[..|text| - 1] == rest + ":" + field[..n];
      CutLastField(rest, field[..n]);
      assert field[..n] + [field[n]] == field;
    }
  }

  /** The first field of a key is the host, the last three are the two hashes and the minute, and the path is
      what lies between. */
  function ReadKey(key: string): Transition {
    var (host, a) := CutFirst(key);
    var (b, minute) := CutLast(a);
    var (c, current) := CutLast(b);
    var (path, previous) := CutLast(c);
    Transition(host, path, previous, current, minute)
  }

  /** A transition is read back from its key, whatever its path holds. */
  lemma KeyRoundTrip(t: Transition)
    requires Separable(t)
    ensures ReadKey(DeriveKey(t)) == t
  {
    var c := t.path + ":" + t.previous;
    var b := c + ":" + t.current;
    var a := b + ":" + t.minute;
    assert DeriveKey(t) == t.host + ":" + a;
    CutFirstField(t.host, a);
    CutLastField(b, t.minute);
    CutLastField(c, t.current);
    CutLastField(t.path, t.previous);
  }

  // ----- when a key determines its transition -----------------------------------------------------------

  function Colons(text: string): nat {
    if text == "" then 0 else Colons(text[..|text| - 1]) + (if text[|text| - 1] == ':' then 1 else 0)
  }

  lemma {:induction false} ColonsAppend(a: string, b: string)
    ensures Colons(a + b) == Colons(a) + Colons(b)
    decreases |b|
  {
    if b == "" {
      assert a + b == a;
    } else {
      var n := |b| - 1;
      assert (a + b)[..|a| + n] == a + b[..n] && (a + b)[|a| + n] == b[n];
      ColonsAppend(a, b[..n]);
    }
  }

  lemma {:induction false} ColonIn(text: string)
    ensures Colons(text) > 0 <==> ':' in text
  {
    if text != "" {
      var n := |text| - 1;
      ColonIn(text[..n]);
      assert text == text[..n] + [text[n]];
    }
  }

  lemma ColonsJoin(a: string, b: string)
    ensures Colons(a + ":" + b) == Colons(a) + Colons(b) + 1
  {
    ColonsAppend(a + ":", b);
    ColonsAppend(a, ":");
    assert ":"[..0] == "";
  }

  lemma ColonsOfKey(t: Transition)
    ensures Colons(DeriveKey(t))
         == Colons(t.host) + Colons(t.path) + Colons(t.previous) + Colons(t.current) + Colons(t.minute) + 4
  {
    ColonsJoin(t.host + ":" + t.path + ":" + t.previous + ":" + t.current, t.minute);
    ColonsJoin(t.host + ":" + t.path + ":" + t.previous, t.current);
    ColonsJoin(t.host + ":" + t.path, t.previous);
    ColonsJoin(t.host, t.path);
  }

  lemma SeparableIffNoColons(t: Transition)
    ensures Separable(t) && ':' !in t.path
            <==> Colons(t.host) + Colons(t.path) + Colons(t.previous) + Colons(t.current) + Colons(t.minute) == 0
  {
    ColonIn(t.host);
    ColonIn(t.path);
    ColonIn(t.previous);
    ColonIn(t.current);
    ColonIn(t.minute);
  }

  lemma CutAtColon(text: string) returns (a: string, b: string)
    requires ':' in text
    ensures text == a + ":" + b
  {
    var i :| 0 <= i < |text| && text[i] == ':';
    a, b := text[..i], text[i + 1..];
  }

  /** A colon in a field can move over to the next field, or the one before. */
  lemma OtherTransition(t: Transition) returns (other: Transition)
    requires !(Separable(t) && ':' !in t.path)
    ensures other != t && DeriveKey(other) == DeriveKey(t)
  {
    if ':' in t.host {
      var a, b := CutAtColon(t.host);
      other := t.(host := a, path := b + ":" + t.path);
      assert |other.host| < |t.host|;
      assert a + ":" + b + ":" + t.path == a + ":" + (b + ":" + t.path);
    } else if ':' in t.path {
      var a, b := CutAtColon(t.path);
      other := t.(path := a, previous := b + ":" + t.previous);
      assert |other.path| < |t.path|;
      assert t.host + ":" + (a + ":" + b) + ":" + t.previous == t.host + ":" + a + ":" + (b + ":" + t.previous);
    } else if ':' in t.previous {
      var a, b := CutAtColon(t.previous);
      other := t.(path := t.path + ":" + a, previous := b);
      assert |other.previous| < |t.previous|;
      assert t.host + ":" + t.path + ":" + (a + ":" + b) == t.host + ":" + (t.path + ":" + a) + ":" + b;
    } else if ':' in t.current {
      var a, b := CutAtColon(t.current);
      other := t.(previous := t.previous + ":" + a, current := b);
      assert |other.current| < |t.current|;
      var head := t.host + ":" + t.path;
      assert head + ":" + t.previous + ":" + (a + ":" + b) == head + ":" + (t.previous + ":" + a) + ":" + b;
    } else {
      var a, b := CutAtColon(t.minute);
      other := t.(current := t.current + ":" + a, minute := b);
      assert |other.minute| < |t.minute|;
      var head := t.host + ":" + t.path + ":" + t.previous;
      assert head + ":" + t.current + ":" + (a + ":" + b) == head + ":" + (t.current + ":" + a) + ":" + b;
    }
  }

  ghost predicate KeyIsItsOwn(t: Transition) {
    forall other :: DeriveKey(other) == DeriveKey(t) ==> other == t
  }

  /** Among all transitions, separable or not, no other one has the key of t if and only if t has no colon in
      any field, the path included. */
  lemma KeyIsItsOwnIff(t: Transition)
    ensures KeyIsItsOwn(t) <==> Separable(t) && ':' !in t.path
  {
    if Separable(t) && ':' !in t.path {
      forall other | DeriveKey(other) == DeriveKey(t) ensures other == t {
        ColonsOfKey(t);
        ColonsOfKey(other);
        SeparableIffNoColons(t);
        SeparableIffNoColons(other);
        KeyIsInjective(other, t);
      }
    } else {
      var other := OtherTransition(t);
      assert DeriveKey(other) == DeriveKey(t) && other != t;
    }
  }
}
