/** The browser storage the site scripts persist a banner dismissal in:
    localStorage entries, read back through JSON.parse, and the cookie
    jar as document.cookie shows it. */
module WebStorage {
  import opened Browser

  /** A localStorage entry as the scripts read it back: the empty string
      (falsy), text JSON.parse rejects, the JSON null, or any other JSON
      value with the numeric `timestamp` and `expires` properties it has
      (None when a property is absent or not a number, as for a JSON
      scalar). */
  datatype Stored =
    | EmptyText
    | Unparsable
    | JsonNull
    | JsonValue(timestamp: Option<int>, expires: Option<int>)

  /** localStorage: None when every access throws (storage disabled). */
  type LocalStorage = Option<map<string, Stored>>

  datatype Cookie = Cookie(name: string, value: string)

  function Pair(c: Cookie): string
  {
    c.name + "=" + c.value
  }

  /** document.cookie: the jar's name=value pairs joined by "; ". */
  function CookieString(jar: seq<Cookie>): string
  {
    if jar == [] then ""
    else if |jar| == 1 then Pair(jar[0])
    else Pair(jar[0]) + "; " + CookieString(jar[1..])
  }

  /** Assigning "name=value; path=/" to document.cookie: the cookie of that
      name takes the new value, or is added at the end. */
  function SetCookie(jar: seq<Cookie>, name: string, value: string): (r: seq<Cookie>)
    ensures Cookie(name, value) in r
    ensures forall c :: c in r && c.name != name ==> c in jar
    ensures forall c :: c in jar && c.name != name ==> c in r
  {
    if jar == [] then [Cookie(name, value)]
    else if jar[0].name == name then [Cookie(name, value)] + jar[1..]
    else [jar[0]] + SetCookie(jar[1..], name, value)
  }

  /** Assigning "name=; expires=<the epoch>" to document.cookie: the
      cookie of that name is dropped. */
  function DeleteCookie(jar: seq<Cookie>, name: string): (r: seq<Cookie>)
    ensures forall c :: c in r <==> c in jar && c.name != name
  {
    if jar == [] then []
    else (if jar[0].name == name then [] else [jar[0]]) + DeleteCookie(jar[1..], name)
  }

  /** `needle` spelled out in `s` from position `i` on. */
  predicate OccursAt(s: string, needle: string, i: int)
  {
    0 <= i <= |s| - |needle| && s[i..i + |needle|] == needle
  }

  /** `s.indexOf(needle) !== -1` */
  predicate Contains(s: string, needle: string)
  {
    exists i | 0 <= i <= |s| - |needle| :: OccursAt(s, needle, i)
  }

  /** A pair is spelled out inside document.cookie when its cookie is in
      the jar. */
  lemma {:induction false} CookieStringShowsPair(jar: seq<Cookie>, c: Cookie)
    requires c in jar
    ensures Contains(CookieString(jar), Pair(c))
  {
    var p := Pair(c);
    if jar[0] == c {
      assert OccursAt(CookieString(jar), p, 0);
    } else {
      CookieStringShowsPair(jar[1..], c);
      var rest := CookieString(jar[1..]);
      var i :| 0 <= i <= |rest| - |p| && OccursAt(rest, p, i);
      var prefix := Pair(jar[0]) + "; ";
      assert CookieString(jar) == prefix + rest;
      assert (prefix + rest)[|prefix| + i..|prefix| + i + |p|] == rest[i..i + |p|];
      assert OccursAt(CookieString(jar), p, |prefix| + i);
    }
  }

  /** A needle with no ';' or ' ' in it never straddles a "; " separator. */
  lemma NeedleWithinPart(a: string, b: string, needle: string)
    requires |needle| > 0 && ';' !in needle && ' ' !in needle
    requires Contains(a + "; " + b, needle)
    ensures Contains(a, needle) || Contains(b, needle)
  {
    var s := a + "; " + b;
    assert s[|a|] == ';' && s[|a| + 1] == ' ';
    var i :| 0 <= i <= |s| - |needle| && OccursAt(s, needle, i);
    forall k | i <= k < i + |needle|
      ensures s[k] != ';' && s[k] != ' '
    {
      assert s[k] == needle[k - i] && needle[k - i] in needle;
    }
    if i + |needle| <= |a| {
      assert s[i..i + |needle|] == a[i..i + |needle|];
      assert OccursAt(a, needle, i);
    } else if i >= |a| + 2 {
      var j := i - |a| - 2;
      assert s[i..i + |needle|] == b[j..j + |needle|];
      assert OccursAt(b, needle, j);
    }
  }

  /** document.cookie mentions the needle only if some single pair does. */
  lemma {:induction false} CookieStringNeedle(jar: seq<Cookie>, needle: string)
    requires |needle| > 0 && ';' !in needle && ' ' !in needle
    requires forall c :: c in jar ==> !Contains(Pair(c), needle)
    ensures !Contains(CookieString(jar), needle)
  {
    if |jar| > 1 {
      assert forall c :: c in jar[1..] ==> c in jar;
      CookieStringNeedle(jar[1..], needle);
      assert jar[0] in jar;
      if Contains(CookieString(jar), needle) {
        NeedleWithinPart(Pair(jar[0]), CookieString(jar[1..]), needle);
      }
    } else if |jar| == 1 {
      assert jar[0] in jar;
    }
  }
}
