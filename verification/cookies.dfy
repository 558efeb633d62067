/**
 * `getCookie` of `src/utils/auth.js`: reading one cookie out of the
 * `document.cookie` string. The browser hands the page its cookies as
 * `name=value` pairs joined by `"; "`; the reader splits on `;`, drops the
 * leading blanks of every piece and returns the rest of the first piece that
 * starts with `name=`.
 */
module Cookies {
  import opened Common

  /** `s.split(';')`: the pieces between separators, always at least one. */
  function Split(s: string): (r: seq<string>)
    ensures |r| >= 1
    ensures forall i :: 0 <= i < |r| ==> ';' !in r[i]
    ensures Join(r) == s
    decreases |s|
  {
    if s == "" then [""]
    else
      var rest := Split(s[1..]);
      if s[0] == ';' then
        assert [""] + rest != [];
        [""] + rest
      else
        var r := [[s[0]] + rest[0]] + rest[1..];
        assert r[1..] == rest[1..];
        r
  }

  /** The inverse of `Split`: the pieces glued back together with `;`. */
  function Join(parts: seq<string>): string
    decreases |parts|
  {
    if parts == [] then ""
    else if |parts| == 1 then parts[0]
    else parts[0] + ";" + Join(parts[1..])
  }

  /** A string without separators is a single piece. */
  lemma {:induction false} SplitPlain(a: string)
    requires ';' !in a
    ensures Split(a) == [a]
    decreases |a|
  {
    if a != "" {
      SplitPlain(a[1..]);
      assert [a[0]] + a[1..] == a;
    }
  }

  /** A separator after a piece without separators starts the next piece. */
  lemma {:induction false} SplitAfter(a: string, b: string)
    requires ';' !in a
    ensures Split(a + ";" + b) == [a] + Split(b)
    decreases |a|
  {
    if a == "" {
      assert (a + ";" + b)[1..] == b;
    } else {
      assert (a + ";" + b)[1..] == a[1..] + ";" + b;
      SplitAfter(a[1..], b);
      assert [a[0]] + a[1..] == a;
    }
  }

  /** `while (c.charAt(0) === ' ') c = c.substring(1)`: only blanks are dropped, not tabs. */
  function DropBlanks(c: string): (r: string)
    ensures |r| <= |c| && r == c[|c| - |r|..]
    ensures forall i :: 0 <= i < |c| - |r| ==> c[i] == ' '
    ensures r == "" || r[0] != ' '
    decreases |c|
  {
    if |c| > 0 && c[0] == ' ' then DropBlanks(c[1..]) else c
  }

  lemma {:induction false} DropBlanksPadded(pad: string, c: string)
    requires forall i :: 0 <= i < |pad| ==> pad[i] == ' '
    requires c == "" || c[0] != ' '
    ensures DropBlanks(pad + c) == c
    decreases |pad|
  {
    if pad == "" {
      assert pad + c == c;
    } else {
      assert (pad + c)[1..] == pad[1..] + c;
      DropBlanksPadded(pad[1..], c);
    }
  }

  /** `c.indexOf(prefix) === 0`. */
  predicate StartsWith(c: string, prefix: string) {
    |prefix| <= |c| && c[..|prefix|] == prefix
  }

  /** Piece `p`, once its blanks are dropped, starts with `nameEq`. */
  predicate Matches(p: string, nameEq: string) {
    StartsWith(DropBlanks(p), nameEq)
  }

  /** Piece `i` is the first one that matches `nameEq`, and `value` is what
      follows `nameEq` in it once its blanks are dropped. */
  predicate FirstMatch(parts: seq<string>, nameEq: string, i: int, value: string) {
    && 0 <= i < |parts|
    && DropBlanks(parts[i]) == nameEq + value
    && NoMatch(parts[..i], nameEq)
  }

  /** No piece matches `nameEq`. */
  predicate NoMatch(parts: seq<string>, nameEq: string)
    decreases |parts|
  {
    parts == [] || (!Matches(parts[0], nameEq) && NoMatch(parts[1..], nameEq))
  }

  /** The loop of `getCookie`: the first piece, once its blanks are dropped, that
      starts with `nameEq`, and what follows `nameEq` in it. */
  function Find(parts: seq<string>, nameEq: string): (r: Option<string>)
    ensures r.None? <==> NoMatch(parts, nameEq)
    ensures r.Some? ==> exists i :: FirstMatch(parts, nameEq, i, r.value)
    decreases |parts|
  {
    if parts == [] then None
    else
      var c := DropBlanks(parts[0]);
      if StartsWith(c, nameEq) then
        assert c == nameEq + c[|nameEq|..];
        assert parts[..0] == [];
        assert FirstMatch(parts, nameEq, 0, c[|nameEq|..]);
        Some(c[|nameEq|..])
      else
        var r := Find(parts[1..], nameEq);
        if r.Some? then
          var i :| FirstMatch(parts[1..], nameEq, i, r.value);
          FirstMatchShift(parts, nameEq, i, r.value);
          r
        else r
  }

  /** A first match after a piece that does not match is a first match one place on. */
  lemma FirstMatchShift(parts: seq<string>, nameEq: string, i: int, value: string)
    requires parts != [] && !Matches(parts[0], nameEq)
    requires FirstMatch(parts[1..], nameEq, i, value)
    ensures FirstMatch(parts, nameEq, i + 1, value)
  {
    assert parts[..i + 1][1..] == parts[1..][..i];
    assert parts[i + 1] == parts[1..][i];
  }

  /** `getCookie(name)` on the cookie string `doc`; `null` is `None`. */
  function GetCookie(doc: string, name: string): (r: Option<string>)
    ensures r.None? <==> NoMatch(Split(doc), name + "=")
    ensures r.Some? ==> exists i :: FirstMatch(Split(doc), name + "=", i, r.value)
  {
    Find(Split(doc), name + "=")
  }

  /** A cookie as the browser stores it: a name with neither `=` nor `;` and
      no leading blank, and a value without `;`. */
  predicate Valid(c: (string, string)) {
    c.0 != "" && c.0[0] != ' ' && '=' !in c.0 && ';' !in c.0 && ';' !in c.1
  }

  /** One `name=value` pair of the cookie string. */
  function Pair(c: (string, string)): string {
    c.0 + "=" + c.1
  }

  /** `document.cookie`: the stored cookies as `name=value` joined by `"; "`. */
  function Header(cs: seq<(string, string)>): string
    decreases |cs|
  {
    if cs == [] then ""
    else if |cs| == 1 then Pair(cs[0])
    else Pair(cs[0]) + "; " + Header(cs[1..])
  }

  /** The value of the first cookie called `name`. */
  function FirstValue(cs: seq<(string, string)>, name: string): (r: Option<string>)
    ensures r.Some? <==> exists i :: 0 <= i < |cs| && cs[i].0 == name
    decreases |cs|
  {
    if cs == [] then None
    else if cs[0].0 == name then Some(cs[0].1)
    else
      assert forall i :: 1 <= i < |cs| ==> cs[i] == cs[1..][i - 1];
      FirstValue(cs[1..], name)
  }

  /** With names free of `=`, `name=` starts the pair of cookie `c` only when
      `c` is called `name`, and what follows is its value. */
  lemma NameMatch(c: (string, string), name: string)
    requires Valid(c) && '=' !in name
    ensures StartsWith(Pair(c), name + "=") <==> c.0 == name
    ensures c.0 == name ==> Pair(c)[|name + "="|..] == c.1
  {
    var text := Pair(c);
    if StartsWith(text, name + "=") {
      assert forall j :: 0 <= j < |c.0| ==> text[j] == c.0[j];
      assert text[|c.0|] == '=';
      assert forall j :: 0 <= j < |name| ==> text[j] == name[j];
      assert text[|name|] == '=';
      assert forall j :: 0 <= j < |name| ==> name[j] in name;
      assert forall j :: 0 <= j < |c.0| ==> c.0[j] in c.0;
      assert c.0 == text[..|name|];
    }
    if c.0 == name {
      assert text == (name + "=") + c.1;
    }
  }

  /** A valid pair, even behind blanks, contains no separator. */
  lemma PairNoSeparator(pad: string, c: (string, string))
    requires forall i :: 0 <= i < |pad| ==> pad[i] == ' '
    requires Valid(c)
    ensures ';' !in pad + Pair(c)
  {
    var t := pad + Pair(c);
    var m := |pad| + |c.0|;
    assert forall k :: 0 <= k < |pad| ==> t[k] == pad[k];
    assert forall k :: |pad| <= k < m ==> t[k] == c.0[k - |pad|];
    assert t[m] == '=';
    assert forall k :: m < k < |t| ==> t[k] == c.1[k - m - 1];
    assert forall k :: 0 <= k < |c.0| ==> c.0[k] in c.0;
    assert forall k :: 0 <= k < |c.1| ==> c.1[k] in c.1;
  }

  /** `Find` looks at the first piece before the others. */
  lemma FindStep(p: string, rest: seq<string>, nameEq: string)
    ensures Find([p] + rest, nameEq) ==
      if StartsWith(DropBlanks(p), nameEq) then Some(DropBlanks(p)[|nameEq|..]) else Find(rest, nameEq)
  {
    assert ([p] + rest)[0] == p;
    assert ([p] + rest)[1..] == rest;
  }

  /** Behind the first pair of a longer cookie string, the `"; "` separator
      starts the piece holding the rest. */
  lemma SplitHeader(pad: string, cs: seq<(string, string)>)
    requires |cs| >= 2 && ';' !in pad + Pair(cs[0])
    ensures Split(pad + Header(cs)) == [pad + Pair(cs[0])] + Split(" " + Header(cs[1..]))
  {
    var a := pad + Pair(cs[0]);
    var b := " " + Header(cs[1..]);
    calc {
      pad + Header(cs);
      pad + (Pair(cs[0]) + "; " + Header(cs[1..]));
      { assert "; " == ";" + " "; }
      a + ";" + b;
    }
    SplitAfter(a, b);
  }

  /** Reading a cookie back from the string the browser builds gives the value of
      the first cookie with that name, and `null` when there is none. */
  lemma CookieRoundTrip(cs: seq<(string, string)>, name: string)
    requires forall i :: 0 <= i < |cs| ==> Valid(cs[i])
    requires '=' !in name
    ensures GetCookie(Header(cs), name) == FirstValue(cs, name)
  {
    ReadPadded("", cs, name);
    assert "" + Header(cs) == Header(cs);
  }

  lemma {:induction false} ReadPadded(pad: string, cs: seq<(string, string)>, name: string)
    requires forall i :: 0 <= i < |pad| ==> pad[i] == ' '
    requires forall i :: 0 <= i < |cs| ==> Valid(cs[i])
    requires '=' !in name
    ensures Find(Split(pad + Header(cs)), name + "=") == FirstValue(cs, name)
    decreases |cs|
  {
    if cs == [] {
      assert pad + Header(cs) == pad;
      SplitPlain(pad);
      DropBlanksPadded(pad, "");
      assert pad + "" == pad;
      FindStep(pad, [], name + "=");
      assert [pad] + [] == [pad];
    } else {
      var c := cs[0];
      PairNoSeparator(pad, c);
      DropBlanksPadded(pad, Pair(c));
      NameMatch(c, name);
      var rest: seq<string>;
      if |cs| == 1 {
        assert pad + Header(cs) == pad + Pair(c);
        SplitPlain(pad + Pair(c));
        rest := [];
        assert [pad + Pair(c)] + rest == [pad + Pair(c)];
      } else {
        ReadPadded(" ", cs[1..], name);
        rest := Split(" " + Header(cs[1..]));
        SplitHeader(pad, cs);
      }
      assert Split(pad + Header(cs)) == [pad + Pair(c)] + rest;
      FindStep(pad + Pair(c), rest, name + "=");
    }
  }
}
