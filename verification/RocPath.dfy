/** Paths of remote calls, "type[id].name.name": printing and parsing. */
module RocPath {

  datatype Parsed = Parsed(objType: string, objID: string, strs: seq<string>)

  // ---------------------------------------------------------------------------------------
  // Splitting at dots
  // ---------------------------------------------------------------------------------------

  /** strings.Split with the separator ".": there is always a first part. */
  function Split(s: string): (parts: seq<string>)
    ensures |parts| >= 1
  {
    if s == "" then [""]
    else var rest := Split(s[1..]);
         if s[0] == '.' then [""] + rest else [[s[0]] + rest[0]] + rest[1..]
  }

  function Suffix(names: seq<string>): string {
    if names == [] then "" else Suffix(names[..|names| - 1]) + "." + names[|names| - 1]
  }

  lemma {:induction false} SplitNoDots(s: string, i: nat)
    requires i < |Split(s)|
    ensures '.' !in Split(s)[i]
  {
    if s != "" {
      SplitNoDots(s[1..], if s[0] == '.' && i > 0 then i - 1 else if s[0] == '.' then 0 else i);
    }
  }

  lemma {:induction false} SplitPlain(s: string)
    requires '.' !in s
    ensures Split(s) == [s]
  {
    if s != "" {
      SplitPlain(s[1..]);
      assert [s[0]] + s[1..] == s;
    }
  }

  /** A part added at the end is found at the end. */
  lemma {:induction false} SplitMore(s: string, name: string)
    requires '.' !in name
    ensures Split(s + "." + name) == Split(s) + [name]
  {
    if s == "" {
      SplitPlain(name);
      assert (s + "." + name)[1..] == name;
    } else {
      SplitMore(s[1..], name);
      assert (s + "." + name)[1..] == s[1..] + "." + name;
    }
  }

  lemma {:induction false} SplitSuffix(head: string, names: seq<string>)
    requires '.' !in head && forall i :: 0 <= i < |names| ==> '.' !in names[i]
    ensures Split(head + Suffix(names)) == [head] + names
    decreases |names|
  {
    if names == [] {
      SplitPlain(head);
      assert head + Suffix(names) == head;
    } else {
      var front, last := names[..|names| - 1], names[|names| - 1];
      SplitSuffix(head, front);
      SplitMore(head + Suffix(front), last);
      assert head + Suffix(names) == head + Suffix(front) + "." + last;
    }
  }

  // ---------------------------------------------------------------------------------------
  // The first part: type and id
  // ---------------------------------------------------------------------------------------

  function Scan(s: string, t: string, key: string, inkey: bool): (string, string) {
    if s == "" || s[0] == '.' then (t, key)
    else if s[0] == '[' then Scan(s[1..], t, key, true)
    else if s[0] == ']' then Scan(s[1..], t, key, false)
    else if key == "" && !inkey then Scan(s[1..], t + [s[0]], key, inkey)
    else if t != "" && inkey then Scan(s[1..], t, key + [s[0]], inkey)
    else ("", "")
  }

  function Decode(s: string): (string, string) {
    Scan(s, "", "", false)
  }

  predicate Plain(s: string) {
    '.' !in s && '[' !in s && ']' !in s
  }

  /** What the scan returns never has a bracket or a dot, nor an id without a type. */
  lemma {:induction false} ScanPlain(s: string, t: string, key: string, inkey: bool)
    requires Plain(t) && Plain(key) && (t == "" ==> key == "")
    ensures var (t', key') := Scan(s, t, key, inkey); Plain(t') && Plain(key') && (t' == "" ==> key' == "")
  {
    if s == "" || s[0] == '.' {
    } else if s[0] == '[' || s[0] == ']' {
      ScanPlain(s[1..], t, key, s[0] == '[');
    } else if key == "" && !inkey {
      ScanPlain(s[1..], t + [s[0]], key, inkey);
    } else if t != "" && inkey {
      ScanPlain(s[1..], t, key + [s[0]], inkey);
    }
  }

  lemma {:induction false} ScanType(t: string, was: string, rest: string)
    requires Plain(t)
    ensures Scan(t + rest, was, "", false) == Scan(rest, was + t, "", false)
  {
    if t == "" {
      assert t + rest == rest && was + t == was;
    } else {
      assert (t + rest)[1..] == t[1..] + rest && was + [t[0]] + t[1..] == was + t;
      ScanType(t[1..], was + [t[0]], rest);
    }
  }

  lemma {:induction false} ScanKey(key: string, t: string, was: string, rest: string)
    requires Plain(key) && t != ""
    ensures Scan(key + rest, t, was, true) == Scan(rest, t, was + key, true)
  {
    if key == "" {
      assert key + rest == rest && was + key == was;
    } else {
      assert (key + rest)[1..] == key[1..] + rest && was + [key[0]] + key[1..] == was + key;
      ScanKey(key[1..], t, was + [key[0]], rest);
    }
  }

  function Head(t: string, id: string): string {
    t + "[" + id + "]"
  }

  /** The first part is read back if it has no brackets or dots and no id without a type. */
  lemma DecodeHead(t: string, id: string)
    requires Plain(t) && Plain(id)
    ensures Decode(Head(t, id)) == if t == "" && id != "" then ("", "") else (t, id)
  {
    var rest := "[" + id + "]";
    assert Head(t, id) == t + rest;
    ScanType(t, "", rest);
    assert "" + t == t && rest[1..] == id + "]";
    if t != "" {
      ScanKey(id, t, "", "]");
      assert "" + id == id && "]"[1..] == "";
    } else if id == "" {
      assert rest[1..] == "]" && "]"[1..] == "";
    } else {
      assert (id + "]")[0] == id[0];
    }
  }

  /** A first part without brackets is all type. */
  lemma OnlyType(t: string)
    requires Plain(t)
    ensures Decode(t) == (t, "")
  {
    ScanType(t, "", "");
    assert t + "" == t && "" + t == t;
  }

  /** The closing bracket may be missing. */
  lemma OpenBracket(t: string, id: string)
    requires Plain(t) && Plain(id) && t != ""
    ensures Decode(t + "[" + id) == (t, id)
  {
    ScanType(t, "", "[" + id);
    assert t + "[" + id == t + ("[" + id) && ("[" + id)[1..] == id && "" + t == t;
    ScanKey(id, t, "", "");
    assert id + "" == id && "" + id == id;
  }

  /** Text behind empty brackets belongs to the type, but text behind an id spoils both. */
  lemma TextBehind(t: string, more: string)
    requires Plain(t) && Plain(more)
    ensures Decode(t + "[]" + more) == (t + more, "")
  {
    ScanType(t, "", "[]" + more);
    assert t + "[]" + more == t + ("[]" + more) && ("[]" + more)[1..] == "]" + more && ("]" + more)[1..] == more;
    assert "" + t == t;
    ScanType(more, t, "");
    assert more + "" == more;
  }

  lemma TextBehindId(t: string, id: string, more: string)
    requires Plain(t) && Plain(id) && Plain(more) && t != "" && id != "" && more != ""
    ensures Decode(Head(t, id) + more) == ("", "")
  {
    var rest := "[" + id + "]" + more;
    assert Head(t, id) + more == t + rest && rest[1..] == id + ("]" + more);
    ScanType(t, "", rest);
    ScanKey(id, t, "", "]" + more);
    assert "" + t == t && "" + id == id && ("]" + more)[1..] == more && more[0] in more;
  }

  // ---------------------------------------------------------------------------------------
  // Whole paths
  // ---------------------------------------------------------------------------------------

  function Printed(p: Parsed): string {
    Head(p.objType, p.objID) + Suffix(p.strs)
  }

  /** A path without names prints as "type[id]", and each name adds a dot and itself. */
  lemma PrintedIs(p: Parsed, name: string)
    ensures Printed(Parsed(p.objType, p.objID, [])) == p.objType + "[" + p.objID + "]"
    ensures Printed(p.(strs := p.strs + [name])) == Printed(p) + "." + name
  {
    var strs := p.strs + [name];
    assert strs[..|strs| - 1] == p.strs;
    assert Printed(p.(strs := strs)) == Head(p.objType, p.objID) + (Suffix(p.strs) + "." + name);
    assert Printed(Parsed(p.objType, p.objID, [])) == Head(p.objType, p.objID) + "";
  }

  function Parse(s: string): Parsed {
    var strs := Split(s);
    var (t, id) := Decode(strs[0]);
    Parsed(t, id, strs[1..])
  }

  predicate Printable(p: Parsed) {
    && Plain(p.objType) && Plain(p.objID) && (p.objType == "" ==> p.objID == "")
    && forall i :: 0 <= i < |p.strs| ==> '.' !in p.strs[i]
  }

  lemma ParsedPrintable(s: string)
    ensures Printable(Parse(s))
  {
    ScanPlain(Split(s)[0], "", "", false);
    forall i | 0 <= i < |Parse(s).strs| ensures '.' !in Parse(s).strs[i] {
      SplitNoDots(s, i + 1);
    }
  }

  /**
   A printed path is read back as it was if and only if its type and id have no brackets or dots,
   there is no id without a type, and no name has a dot.
   */
  lemma RoundTrip(p: Parsed)
    ensures Parse(Printed(p)) == p <==> Printable(p)
  {
    if Printable(p) {
      DecodeHead(p.objType, p.objID);
      SplitSuffix(Head(p.objType, p.objID), p.strs);
    } else {
      ParsedPrintable(Printed(p));
    }
  }

  /** Whatever was parsed, printing it and parsing that changes nothing more. */
  lemma ParseIsStable(s: string)
    ensures Parse(Printed(Parse(s))) == Parse(s)
  {
    ParsedPrintable(s);
    RoundTrip(Parse(s));
  }

  method KstrDecode(kstr: string) returns (t: string, key: string)
    ensures (t, key) == Decode(kstr)
  {
    t, key := "", "";
    var inkey := false;
    for i := 0 to |kstr|
      invariant Scan(kstr[i..], t, key, inkey) == Decode(kstr)
    {
      var k := kstr[i];
      assert kstr[i..][1..] == kstr[i + 1..];
      if k == '[' {
        inkey := true;
      } else if k == ']' {
        inkey := false;
      } else if k == '.' {
        break;
      } else {
        if key == "" && !inkey {
          t := t + [k];
        } else if t != "" && inkey {
          key := key + [k];
        } else {
          return "", "";
        }
      }
    }
  }

  class ROCPath {
    var strs: seq<string>
    var pos: nat
    var objType: string
    var objID: string

    ghost function Value(): Parsed
      reads this
    {
      Parsed(objType, objID, strs)
    }

    constructor O(objType: string, objID: string)
      ensures Value() == Parsed(objType, objID, []) && pos == 0
    {
      this.objType, this.objID, strs, pos := objType, objID, [], 0;
    }

    static method NewROCPath(pathstr: string) returns (res: ROCPath)
      ensures fresh(res) && res.Value() == Parse(pathstr) && res.pos == 0
    {
      res := new ROCPath.O("", "");
      var strs := Split(pathstr);
      var t, id := KstrDecode(strs[0]);
      res.objType, res.objID := t, id;
      res.strs := strs[1..];
    }

    method F(funcName: string)
      modifies this
      ensures Value() == old(Value()).(strs := old(strs) + [funcName]) && pos == old(pos)
    {
      strs := strs + [funcName];
    }

    method String() returns (res: string)
      ensures res == Printed(Value())
      ensures strs == [] ==> res == objType + "[" + objID + "]"
    {
      res := objType + "[" + objID + "]";
      for i := 0 to |strs|
        invariant res == Head(objType, objID) + Suffix(strs[..i])
      {
        assert strs[..i + 1][..i] == strs[..i];
        res := res + "." + strs[i];
      }
      assert strs[..|strs|] == strs;
    }

    method Get(pos: int) returns (s: string)
      ensures s == if 0 <= pos < |strs| then strs[pos] else ""
    {
      if pos < 0 || pos >= |strs| {
        return "";
      }
      return strs[pos];
    }

    /** The name at the position, which moves on; "" and no move at the end. */
    method Move() returns (res: string)
      modifies this`pos
      ensures old(pos) < |strs| ==> res == strs[old(pos)] && pos == old(pos) + 1
      ensures old(pos) >= |strs| ==> res == "" && pos == old(pos)
    {
      if pos >= |strs| {
        return "";
      }
      res := strs[pos];
      pos := pos + 1;
    }

    method Reset()
      modifies this`pos
      ensures pos == 0
    {
      pos := 0;
    }
  }
}
