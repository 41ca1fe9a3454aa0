/** The JavaScript values and built-ins the meal planner relies on: JSON values
    as Express hands over a parsed request body, truthiness, and the string
    operations `split`, `trim` and `join`. */
module Js {

  /** `undefined` (None) or a present value. */
  datatype Option<+T> = None | Some(value: T)

  /** A parsed JSON value. Objects are maps: key order is not modelled. */
  datatype Json =
    | JNull
    | JBool(b: bool)
    | JNum(n: real)
    | JStr(s: string)
    | JArr(elems: seq<Json>)
    | JObj(fields: map<string, Json>)

  /** ToBoolean (ECMAScript section 7.1.2) on JSON values: null, false, 0 and ""
      are falsy; every array and object is truthy, even an empty one. */
  predicate Truthy(v: Json) {
    match v
    case JNull => false
    case JBool(b) => b
    case JNum(n) => n != 0.0
    case JStr(s) => s != ""
    case JArr(_) => true
    case JObj(_) => true
  }

  /** The property `key` of a request body; None when the body has no such key. */
  function Prop(body: map<string, Json>, key: string): Option<Json> {
    if key in body then Some(body[key]) else None
  }

  /** `!x` is false: the property is present and truthy. */
  predicate Given(x: Option<Json>) {
    x.Some? && Truthy(x.value)
  }

  /** A destructuring default `{ x = d } = body`: it applies only when the
      property is undefined, so an explicit null is kept. */
  function OrDefault(x: Option<Json>, d: Json): Json {
    if x.Some? then x.value else d
  }

  /** `Array.isArray(x)`. */
  predicate IsArray(x: Option<Json>) {
    x.Some? && x.value.JArr?
  }

  /** The code points `String.prototype.trim` removes: WhiteSpace and
      LineTerminator of ECMAScript sections 12.2 and 12.3. They are tab, line
      feed, vertical tab, form feed and carriage return (U+0009 to U+000D),
      space, no-break space, the byte order mark, the line and paragraph
      separators, and the space separators of Unicode category Zs (U+1680,
      U+2000 to U+200A, U+202F, U+205F, U+3000). */
  predicate IsSpace(c: char) {
    || '\t' <= c <= '\r'
    || c == ' ' || c == '\U{00A0}' || c == '\U{1680}'
    || '\U{2000}' <= c <= '\U{200A}'
    || c == '\U{2028}' || c == '\U{2029}' || c == '\U{202F}' || c == '\U{205F}'
    || c == '\U{3000}' || c == '\U{FEFF}'
  }

  /** Every character of `s` is white space. */
  predicate AllSpace(s: string) {
    forall k :: 0 <= k < |s| ==> IsSpace(s[k])
  }

  /** `s` without its leading white space. */
  function TrimStart(s: string): string {
    if s != [] && IsSpace(s[0]) then TrimStart(s[1..]) else s
  }

  /** `s` without its trailing white space. */
  function TrimEnd(s: string): string {
    if s != [] && IsSpace(s[|s| - 1]) then TrimEnd(s[..|s| - 1]) else s
  }

  /** `s.trim()`: `s` without the white space on both sides. */
  function Trim(s: string): string {
    TrimEnd(TrimStart(s))
  }

  /** What `TrimStart` leaves is a suffix of `s` that is empty or starts with
      a non-space, and what it cut is all white space. */
  lemma {:induction false} TrimStartCuts(s: string)
    ensures |TrimStart(s)| <= |s| && TrimStart(s) == s[|s| - |TrimStart(s)|..]
    ensures AllSpace(s[..|s| - |TrimStart(s)|])
    ensures TrimStart(s) == [] || !IsSpace(TrimStart(s)[0])
  {
    if s != [] && IsSpace(s[0]) {
      var t := TrimStart(s[1..]);
      TrimStartCuts(s[1..]);
      assert s[..|s| - |t|] == [s[0]] + s[1..][..|s| - 1 - |t|];
    }
  }

  /** What `TrimEnd` leaves is a prefix of `s` that is empty or ends with a
      non-space, and what it cut is all white space. */
  lemma {:induction false} TrimEndCuts(s: string)
    ensures |TrimEnd(s)| <= |s| && TrimEnd(s) == s[..|TrimEnd(s)|]
    ensures AllSpace(s[|TrimEnd(s)|..])
    ensures TrimEnd(s) == [] || !IsSpace(TrimEnd(s)[|TrimEnd(s)| - 1])
  {
    if s != [] && IsSpace(s[|s| - 1]) {
      var t := TrimEnd(s[..|s| - 1]);
      TrimEndCuts(s[..|s| - 1]);
      assert s[|t|..] == s[..|s| - 1][|t|..] + [s[|s| - 1]];
    }
  }

  /** `t` is what remains of `s` once the white space on both sides is cut:
      a slice of `s` with nothing but white space before and after it, empty
      or with a non-space at each end. */
  ghost predicate TrimmedFrom(t: string, s: string) {
    && (t == [] || (!IsSpace(t[0]) && !IsSpace(t[|t| - 1])))
    && exists i :: (0 <= i <= |s| - |t| && t == s[i..i + |t|]
                    && AllSpace(s[..i]) && AllSpace(s[i + |t|..]))
  }

  /** `trim` gives the empty string exactly for an all-white-space string,
      and otherwise a string that starts and ends with a non-space. */
  lemma TrimEmptyOrClean(s: string)
    ensures Trim(s) == [] <==> AllSpace(s)
    ensures Trim(s) != [] ==> !IsSpace(Trim(s)[0]) && !IsSpace(Trim(s)[|Trim(s)| - 1])
  {
    TrimStartCuts(s);
    TrimEndCuts(TrimStart(s));
    TrimEnds(s, TrimStart(s), Trim(s));
  }

  /** What `trim` leaves is a slice of `s` with nothing but white space
      before and after it. */
  lemma TrimIsSlice(s: string)
    ensures TrimmedFrom(Trim(s), s)
  {
    TrimStartCuts(s);
    TrimEndCuts(TrimStart(s));
    TrimmedSlice(s, TrimStart(s), Trim(s));
  }

  /** Cutting white space from both ends leaves nothing exactly when there
      was nothing but white space. */
  lemma TrimEnds(s: string, u: string, t: string)
    requires |u| <= |s| && u == s[|s| - |u|..] && AllSpace(s[..|s| - |u|])
    requires u == [] || !IsSpace(u[0])
    requires |t| <= |u| && t == u[..|t|] && AllSpace(u[|t|..])
    requires t == [] || !IsSpace(t[|t| - 1])
    ensures t == [] <==> AllSpace(s)
    ensures t != [] ==> !IsSpace(t[0])
  {
    AllSpaceSplit(s, |s| - |u|);
    if t != [] {
      assert t[0] == u[0];
    } else {
      assert u[|t|..] == u;
    }
  }

  /** A suffix `u` of `s` after white space only, and a prefix `t` of `u`
      before white space only, with non-space characters at their cut ends:
      `t` is a trimmed slice of `s`. */
  lemma TrimmedSlice(s: string, u: string, t: string)
    requires |u| <= |s| && u == s[|s| - |u|..] && AllSpace(s[..|s| - |u|])
    requires u == [] || !IsSpace(u[0])
    requires |t| <= |u| && t == u[..|t|] && AllSpace(u[|t|..])
    requires t == [] || !IsSpace(t[|t| - 1])
    ensures TrimmedFrom(t, s)
  {
    var i := |s| - |u|;
    assert s[i..i + |t|] == u[..|t|];
    assert s[i + |t|..] == u[|t|..];
    assert 0 <= i <= |s| - |t| && t == s[i..i + |t|] && AllSpace(s[..i]) && AllSpace(s[i + |t|..]);
    if t != [] {
      assert t[0] == u[0];
    }
  }

  /** A string is all white space exactly when both halves of any cut are. */
  lemma AllSpaceSplit(s: string, i: nat)
    requires i <= |s|
    ensures AllSpace(s) <==> AllSpace(s[..i]) && AllSpace(s[i..])
  {
    if AllSpace(s[..i]) && AllSpace(s[i..]) {
      forall k | 0 <= k < |s| ensures IsSpace(s[k]) {
        if k < i { assert s[k] == s[..i][k]; } else { assert s[k] == s[i..][k - i]; }
      }
    }
  }

  /** A string with no white space at either end is its own trim. */
  lemma TrimOfTrimmed(t: string)
    requires t == [] || (!IsSpace(t[0]) && !IsSpace(t[|t| - 1]))
    ensures Trim(t) == t
  {
  }

  /** The number of occurrences of `c` in `s`. */
  function Occurrences(s: string, c: char): nat {
    if s == [] then 0 else (if s[0] == c then 1 else 0) + Occurrences(s[1..], c)
  }

  /** `parts.join(sep)`. */
  function Join(parts: seq<string>, sep: string): string {
    if |parts| == 0 then ""
    else if |parts| == 1 then parts[0]
    else parts[0] + sep + Join(parts[1..], sep)
  }

  /** `s.split(sep)` for a one-character separator: the pieces between
      separators, one more than there are separators, none containing the
      separator, and joining them back gives `s`. */
  function Split(s: string, sep: char): (parts: seq<string>)
    ensures |parts| == Occurrences(s, sep) + 1
    ensures forall k :: 0 <= k < |parts| ==> sep !in parts[k]
    ensures Join(parts, [sep]) == s
  {
    if s == [] then [[]]
    else
      var rest := Split(s[1..], sep);
      if s[0] == sep then
        assert Join([[]] + rest, [sep]) == [sep] + Join(rest, [sep]);
        [[]] + rest
      else
        JoinConsChar(s[0], rest, [sep]);
        [[s[0]] + rest[0]] + rest[1..]
  }

  /** Putting one more character in front of the first piece puts it in front
      of the joined string. */
  lemma JoinConsChar(c: char, parts: seq<string>, sep: string)
    requires |parts| > 0
    ensures Join([[c] + parts[0]] + parts[1..], sep) == [c] + Join(parts, sep)
  {
    var ps := [[c] + parts[0]] + parts[1..];
    assert ps[1..] == parts[1..];
  }

  /** Splitting a string that starts with a separator-free prefix `p`: `p`
      joins the first piece. */
  lemma {:induction false} SplitPrefix(p: string, rest: string, sep: char)
    requires sep !in p
    ensures Split(p + rest, sep) == [p + Split(rest, sep)[0]] + Split(rest, sep)[1..]
  {
    if p != [] {
      var r := Split(rest, sep);
      assert (p + rest)[1..] == p[1..] + rest;
      SplitPrefix(p[1..], rest, sep);
      var r' := Split(p[1..] + rest, sep);
      assert r'[0] == p[1..] + r[0] && r'[1..] == r[1..];
      assert Split(p + rest, sep) == [[p[0]] + r'[0]] + r'[1..];
      assert [p[0]] + (p[1..] + r[0]) == p + r[0];
    } else {
      var r := Split(rest, sep);
      assert p + rest == rest && p + r[0] == r[0];
      assert r == [r[0]] + r[1..];
    }
  }

  /** `split` undoes `join` when no part contains the separator. */
  lemma {:induction false} SplitJoin(parts: seq<string>, sep: char)
    requires |parts| > 0
    requires forall k :: 0 <= k < |parts| ==> sep !in parts[k]
    ensures Split(Join(parts, [sep]), sep) == parts
  {
    if |parts| == 1 {
      SplitPrefix(parts[0], [], sep);
      assert parts[0] + [] == parts[0];
    } else {
      var tail := Join(parts[1..], [sep]);
      assert Join(parts, [sep]) == parts[0] + ([sep] + tail);
      SplitJoin(parts[1..], sep);
      var r := Split([sep] + tail, sep);
      assert ([sep] + tail)[1..] == tail;
      assert r == [[]] + parts[1..];
      SplitPrefix(parts[0], [sep] + tail, sep);
      assert r[0] == [] && r[1..] == parts[1..];
      assert parts[0] + r[0] == parts[0];
    }
  }
}
