/** Saving users as lines of text and splitting the lines again (src/acl.c, src/sds.c): when the words come back. */
module AclSave {
  import opened Common
  import opened Acl
  import opened AclDescribe
  import opened AclRoundTrip
  import opened AclUser
  import opened AclLoad

  // ----- sdssplitargs

  datatype Quoting = Bare | Double | Single

  datatype Split1 = Token(text: string, rest: string) | Broken

  predicate End(s: string) {
    s == [] || s[0] == '\0'
  }

  /** The characters that end a token outside quotes. */
  predicate Breaks(c: char) {
    c == ' ' || c == '\n' || c == '\r' || c == '\t'
  }

  function HexDigit(c: char): (r: Option<nat>)
    ensures r.Some? ==> r.value < 16
  {
    if '0' <= c <= '9' then Some((c - '0') as nat)
    else if 'a' <= c <= 'f' then Some((c - 'a') as nat + 10)
    else if 'A' <= c <= 'F' then Some((c - 'A') as nat + 10)
    else None
  }

  function Escaped(c: char): char {
    match c
    case 'n' => '\n'
    case 'r' => '\r'
    case 't' => '\t'
    case 'b' => 8 as char
    case 'a' => 7 as char
    case _ => c
  }

  predicate HexEscape(s: string) {
    |s| >= 4 && s[0] == '\\' && s[1] == 'x' && HexDigit(s[2]).Some? && HexDigit(s[3]).Some?
  }

  /** A closing quote must be followed by white space or nothing at all. */
  predicate Closes(rest: string) {
    End(rest) || IsSpace(rest[0])
  }

  /** The rest of a token, `cur` being what was read of it. */
  function ReadToken(mode: Quoting, s: string, cur: string): Split1
    decreases |s|
  {
    match mode
    case Double =>
      if HexEscape(s) then ReadToken(Double, s[4..], cur + [(16 * HexDigit(s[2]).value + HexDigit(s[3]).value) as char])
      else if |s| >= 2 && s[0] == '\\' && s[1] != '\0' then ReadToken(Double, s[2..], cur + [Escaped(s[1])])
      else if End(s) then Broken
      else if s[0] == '"' then (if Closes(s[1..]) then Token(cur, s[1..]) else Broken)
      else ReadToken(Double, s[1..], cur + [s[0]])
    case Single =>
      if |s| >= 2 && s[0] == '\\' && s[1] == '\'' then ReadToken(Single, s[2..], cur + ['\''])
      else if End(s) then Broken
      else if s[0] == '\'' then (if Closes(s[1..]) then Token(cur, s[1..]) else Broken)
      else ReadToken(Single, s[1..], cur + [s[0]])
    case Bare =>
      if End(s) then Token(cur, s)
      else if Breaks(s[0]) then Token(cur, s[1..])
      else if s[0] == '"' then ReadToken(Double, s[1..], cur)
      else if s[0] == '\'' then ReadToken(Single, s[1..], cur)
      else ReadToken(Bare, s[1..], cur + [s[0]])
  }

  function SkipBlanks(s: string): (r: string)
    ensures |r| <= |s| && (End(r) || !IsSpace(r[0])) && r == s[|s| - |r|..]
  {
    if !End(s) && IsSpace(s[0]) then SkipBlanks(s[1..]) else s
  }

  lemma {:induction false} TokenShorter(mode: Quoting, s: string, cur: string)
    ensures ReadToken(mode, s, cur).Token? ==> |ReadToken(mode, s, cur).rest| <= |s|
    decreases |s|
  {
    if s != [] {
      match mode
      case Double =>
        if HexEscape(s) {
          TokenShorter(Double, s[4..], cur + [(16 * HexDigit(s[2]).value + HexDigit(s[3]).value) as char]);
        } else if |s| >= 2 && s[0] == '\\' && s[1] != '\0' {
          TokenShorter(Double, s[2..], cur + [Escaped(s[1])]);
        } else {
          TokenShorter(Double, s[1..], cur + [s[0]]);
        }
      case Single =>
        if |s| >= 2 && s[0] == '\\' && s[1] == '\'' {
          TokenShorter(Single, s[2..], cur + ['\'']);
        } else {
          TokenShorter(Single, s[1..], cur + [s[0]]);
        }
      case Bare =>
        TokenShorter(Double, s[1..], cur);
        TokenShorter(Single, s[1..], cur);
        TokenShorter(Bare, s[1..], cur + [s[0]]);
    }
  }

  /** A token starts at a character that is no blank, and so takes something away. */
  lemma FirstTokenShorter(s: string)
    requires !End(s) && !IsSpace(s[0])
    ensures ReadToken(Bare, s, "").Token? ==> |ReadToken(Bare, s, "").rest| < |s|
  {
    TokenShorter(Double, s[1..], "");
    TokenShorter(Single, s[1..], "");
    TokenShorter(Bare, s[1..], "" + [s[0]]);
  }

  /** sdssplitargs; None where it finds quotes that are not balanced. */
  function Split(s: string): Option<seq<string>>
    decreases |s|
  {
    var q := SkipBlanks(s);
    if End(q) then Some([])
    else
      FirstTokenShorter(q);
      match ReadToken(Bare, q, "")
      case Broken => None
      case Token(t, rest) => match Split(rest)
        case None => None
        case Some(ts) => Some([t] + ts)
  }

  function Behind(head: seq<string>, tail: Option<seq<string>>): Option<seq<string>> {
    match tail case None => None case Some(ts) => Some(head + ts)
  }

  /** The loop that gets one token, with its two flags. */
  method GetToken(s: string) returns (r: Split1)
    ensures r == ReadToken(Bare, s, "")
  {
    hide HexEscape;
    var p, inq, insq, current := s, false, false, "";
    while true
      invariant !(inq && insq)
      invariant ReadToken(if inq then Double else if insq then Single else Bare, p, current) == ReadToken(Bare, s, "")
      decreases |p|
    {
      if inq {
        if HexEscape(p) {
          assert |p| >= 4 && HexDigit(p[2]).Some? && HexDigit(p[3]).Some? by { HexParts(p); }
          current := current + [(16 * HexDigit(p[2]).value + HexDigit(p[3]).value) as char];
          p := p[4..];
        } else if |p| >= 2 && p[0] == '\\' && p[1] != '\0' {
          current := current + [Escaped(p[1])];
          p := p[2..];
        } else if End(p) {
          return Broken;
        } else if p[0] == '"' {
          if !Closes(p[1..]) {
            return Broken;
          }
          return Token(current, p[1..]);
        } else {
          current, p := current + [p[0]], p[1..];
        }
      } else if insq {
        if |p| >= 2 && p[0] == '\\' && p[1] == '\'' {
          current, p := current + ['\''], p[2..];
        } else if End(p) {
          return Broken;
        } else if p[0] == '\'' {
          if !Closes(p[1..]) {
            return Broken;
          }
          return Token(current, p[1..]);
        } else {
          current, p := current + [p[0]], p[1..];
        }
      } else {
        if End(p) {
          return Token(current, p);
        } else if Breaks(p[0]) {
          return Token(current, p[1..]);
        } else if p[0] == '"' {
          inq, p := true, p[1..];
        } else if p[0] == '\'' {
          insq, p := true, p[1..];
        } else {
          current, p := current + [p[0]], p[1..];
        }
      }
    }
  }

  lemma HexParts(s: string)
    requires HexEscape(s)
    ensures |s| >= 4 && HexDigit(s[2]).Some? && HexDigit(s[3]).Some?
  {
  }

  lemma SplitFrom(s: string)
    ensures var q := SkipBlanks(s);
            if End(q) then Split(s) == Some([])
            else match ReadToken(Bare, q, "")
              case Broken => Split(s) == None
              case Token(t, rest) => Split(s) == Behind([t], Split(rest))
  {
    hide ReadToken, SkipBlanks;
    if !End(SkipBlanks(s)) {
      TokenTaken(s);
    }
  }

  lemma TokenTaken(s: string)
    requires !End(SkipBlanks(s))
    ensures var r := ReadToken(Bare, SkipBlanks(s), ""); r.Token? ==> |r.rest| < |s|
    ensures !IsSpace(SkipBlanks(s)[0])
  {
    hide ReadToken, SkipBlanks;
    FirstTokenShorter(SkipBlanks(s));
  }

  /** sdssplitargs, as its outer loop. */
  method SplitArgs(line: string) returns (r: Option<seq<string>>)
    ensures r == Split(line)
  {
    hide ReadToken, SkipBlanks, Split;
    var p, vector := line, [];
    assert Split(line).Some? ==> [] + Split(line).value == Split(line).value;
    while true
      invariant Behind(vector, Split(p)) == Split(line)
      decreases |p|
    {
      var q := SkipBlanks(p);
      SplitFrom(p);
      if End(q) {
        assert vector + [] == vector;
        return Some(vector);
      }
      TokenTaken(p);
      var t := GetToken(q);
      match t {
        case Broken => return None;
        case Token(text, rest) =>
          ghost var more := Split(rest);
          assert more.Some? ==> vector + ([text] + more.value) == (vector + [text]) + more.value;
          vector, p := vector + [text], rest;
      }
    }
  }

  // ----- words that survive

  predicate Special(c: char) {
    Breaks(c) || c == '\0' || c == '"' || c == '\''
  }

  predicate Plain(s: string) {
    forall i :: 0 <= i < |s| ==> !Special(s[i])
  }

  /** A word that stays itself when it is joined with others by spaces and split off again. */
  predicate PlainWord(w: string) {
    w != [] && !IsSpace(w[0]) && Plain(w)
  }

  function Total(ws: seq<string>): nat {
    if ws == [] then 0 else |ws[0]| + Total(ws[1..])
  }

  // A token costs at least as many characters as it has, one more if another follows, and two more if it was quoted.

  lemma {:induction false} DoubleCost(s: string, cur: string)
    ensures var r := ReadToken(Double, s, cur);
            r.Token? ==> |cur| <= |r.text| && r.text[..|cur|] == cur && |r.text| - |cur| + |r.rest| + 1 <= |s|
    decreases |s|
  {
    if s != [] {
      if HexEscape(s) {
        var c := (16 * HexDigit(s[2]).value + HexDigit(s[3]).value) as char;
        DoubleCost(s[4..], cur + [c]);
        Shorter(ReadToken(Double, s, cur), cur, c);
      } else if |s| >= 2 && s[0] == '\\' && s[1] != '\0' {
        DoubleCost(s[2..], cur + [Escaped(s[1])]);
        Shorter(ReadToken(Double, s, cur), cur, Escaped(s[1]));
      } else if !End(s) && s[0] != '"' {
        DoubleCost(s[1..], cur + [s[0]]);
        Shorter(ReadToken(Double, s, cur), cur, s[0]);
      }
    }
  }

  lemma {:induction false} SingleCost(s: string, cur: string)
    ensures var r := ReadToken(Single, s, cur);
            r.Token? ==> |cur| <= |r.text| && r.text[..|cur|] == cur && |r.text| - |cur| + |r.rest| + 1 <= |s|
    decreases |s|
  {
    if s != [] {
      if |s| >= 2 && s[0] == '\\' && s[1] == '\'' {
        SingleCost(s[2..], cur + ['\'']);
        Shorter(ReadToken(Single, s, cur), cur, '\'');
      } else if !End(s) && s[0] != '\'' {
        SingleCost(s[1..], cur + [s[0]]);
        Shorter(ReadToken(Single, s, cur), cur, s[0]);
      }
    }
  }

  lemma Shorter(r: Split1, cur: string, c: char)
    ensures r.Token? && |cur| < |r.text| && r.text[..|cur| + 1] == cur + [c] ==>
              r.text[..|cur|] == cur && r.text[|cur|..] == [c] + r.text[|cur| + 1..]
  {
    if r.Token? && |cur| < |r.text| && r.text[..|cur| + 1] == cur + [c] {
      assert r.text[..|cur|] == r.text[..|cur| + 1][..|cur|];
      assert r.text[|cur|] == r.text[..|cur| + 1][|cur|];
    }
  }

  lemma {:induction false} BareCost(s: string, cur: string)
    ensures var r := ReadToken(Bare, s, cur);
            r.Token? ==>
              |cur| <= |r.text| && r.text[..|cur|] == cur && |r.text| - |cur| + |r.rest| <= |s| &&
              (|r.text| - |cur| + |r.rest| + 2 <= |s| ||
               (Plain(r.text[|cur|..]) && (End(r.rest) || |r.text| - |cur| + |r.rest| + 1 <= |s|)))
    decreases |s|
  {
    if !End(s) {
      DoubleCost(s[1..], cur);
      SingleCost(s[1..], cur);
      if !Special(s[0]) {
        BareCost(s[1..], cur + [s[0]]);
        Shorter(ReadToken(Bare, s, cur), cur, s[0]);
      }
    }
  }

  /** The words of a line, with what separates them, are no longer than the line; and if just as long they are plain. */
  lemma {:induction false} SplitCost(s: string)
    ensures Split(s).Some? && Split(s).value != [] ==>
              Total(Split(s).value) + |Split(s).value| - 1 <= |s| &&
              (Total(Split(s).value) + |Split(s).value| - 1 == |s| ==>
                 forall i :: 0 <= i < |Split(s).value| ==> PlainWord(Split(s).value[i]))
    decreases |s|
  {
    hide ReadToken, SkipBlanks;
    var q := SkipBlanks(s);
    if !End(q) && ReadToken(Bare, q, "").Token? {
      var t, rest := ReadToken(Bare, q, "").text, ReadToken(Bare, q, "").rest;
      BareCost(q, "");
      FirstTokenShorter(q);
      assert t[0..] == t;
      SplitCost(rest);
      if Split(rest).Some? {
        var ts := Split(rest).value;
        assert Split(s).value == [t] + ts && ([t] + ts)[1..] == ts;
        if ts != [] {
          RestGoesOn(rest);
        }
        if |t| + |rest| + 2 > |q| {
          PlainToken(q);
        }
      }
    }
  }

  lemma RestGoesOn(rest: string)
    requires Split(rest).Some? && Split(rest).value != []
    ensures !End(rest)
  {
  }

  /** Outside quotes a token starts with the character it starts at. */
  lemma PlainToken(s: string)
    requires !End(s) && !IsSpace(s[0])
    ensures var r := ReadToken(Bare, s, ""); r.Token? && |r.text| + |r.rest| + 2 > |s| ==> PlainWord(r.text)
  {
    BareCost(s, "");
    var r := ReadToken(Bare, s, "");
    if r.Token? {
      assert r.text[0..] == r.text;
      DoubleCost(s[1..], "");
      SingleCost(s[1..], "");
      if !Special(s[0]) {
        BareCost(s[1..], "" + [s[0]]);
      }
    }
  }

  // ----- joining

  function Joined(ws: seq<string>): string
    requires ws != []
  {
    if |ws| == 1 then ws[0] else ws[0] + " " + Joined(ws[1..])
  }

  lemma {:induction false} JoinedSpaced(ws: seq<string>)
    requires ws != []
    ensures Joined(ws) + " " == Spaced(ws) && |Joined(ws)| == Total(ws) + |ws| - 1
    decreases |ws|
  {
    if |ws| == 1 {
      assert ws[1..] == [];
      assert Spaced(ws) == ws[0] + " ";
    } else {
      JoinedSpaced(ws[1..]);
    }
  }

  lemma {:induction false} ReadPlain(w: string, x: string, cur: string)
    requires Plain(w)
    ensures ReadToken(Bare, w + x, cur) == ReadToken(Bare, x, cur + w)
    decreases |w|
  {
    if w == [] {
      assert w + x == x && cur + w == cur;
    } else {
      assert (w + x)[1..] == w[1..] + x && (w + x)[0] == w[0];
      ReadPlain(w[1..], x, cur + [w[0]]);
      assert cur + [w[0]] + w[1..] == cur + w;
    }
  }

  /** A plain word and a space are split off. */
  lemma SplitHead(w: string, x: string)
    requires PlainWord(w)
    ensures Split(w + " " + x) == Behind([w], Split(x))
  {
    hide ReadToken, Split;
    var s := w + " " + x;
    assert s[0] == w[0];
    assert s == w + (" " + x);
    ReadPlain(w, " " + x, "");
    assert "" + w == w;
    SpaceEnds(x, w);
    SplitStep(s);
  }

  lemma SpaceEnds(x: string, cur: string)
    ensures ReadToken(Bare, " " + x, cur) == Token(cur, x)
  {
    assert (" " + x)[1..] == x;
  }

  lemma SplitLast(w: string)
    requires PlainWord(w)
    ensures Split(w) == Some([w])
  {
    hide ReadToken, Split;
    ReadPlain(w, "", "");
    assert w + "" == w && "" + w == w;
    EndEnds(w);
    SplitStep(w);
    SplitNothing();
    assert [w] + [] == [w];
  }

  lemma SplitNothing()
    ensures Split("") == Some([])
  {
  }

  lemma SplitStep(s: string)
    requires !End(s) && !IsSpace(s[0])
    ensures ReadToken(Bare, s, "").Token? ==>
              Split(s) == Behind([ReadToken(Bare, s, "").text], Split(ReadToken(Bare, s, "").rest))
    ensures ReadToken(Bare, s, "").Broken? ==> Split(s) == None
  {
    hide ReadToken;
    assert SkipBlanks(s) == s;
    FirstTokenShorter(s);
  }

  lemma EndEnds(cur: string)
    ensures ReadToken(Bare, "", cur) == Token(cur, "")
  {
  }

  lemma {:induction false} SplitJoined(ws: seq<string>)
    requires ws != [] && forall i :: 0 <= i < |ws| ==> PlainWord(ws[i])
    ensures Split(Joined(ws)) == Some(ws)
    decreases |ws|
  {
    hide Split, PlainWord;
    if |ws| == 1 {
      SplitLast(ws[0]);
      assert ws == [ws[0]];
    } else {
      SplitHead(ws[0], Joined(ws[1..]));
      SplitJoined(ws[1..]);
      assert [ws[0]] + ws[1..] == ws;
    }
  }

  // ----- a line of the file

  /** What sdstrim drops: spaces, tabs, line ends, and the null with which its strchr finds the set to end. */
  predicate Trimmed(c: char) {
    Breaks(c) || c == '\0'
  }

  function TrimLeft(s: string): (r: string)
    ensures |r| <= |s|
  {
    if s != [] && Trimmed(s[0]) then TrimLeft(s[1..]) else s
  }

  function TrimRight(s: string): (r: string)
    ensures |r| <= |s|
  {
    if s != [] && Trimmed(s[|s| - 1]) then TrimRight(s[..|s| - 1]) else s
  }

  function LineOf(text: string): Line {
    var s := TrimRight(TrimLeft(text));
    if End(s) then Blank
    else match Split(s)
      case None => Unbalanced
      case Some(ws) => Words(ws)
  }

  lemma {:induction false} JoinedEnds(ws: seq<string>)
    requires ws != [] && forall i :: 0 <= i < |ws| ==> PlainWord(ws[i])
    ensures var s := Joined(ws); s != [] && ws[0] != [] && s[0] == ws[0][0] && !Special(s[0]) && !Special(s[|s| - 1])
    decreases |ws|
  {
    hide Special;
    if |ws| > 1 {
      JoinedEnds(ws[1..]);
    }
  }

  /** Words joined by spaces come back from the line iff all of them are plain. */
  lemma JoinedLineIff(ws: seq<string>)
    requires ws != []
    ensures LineOf(Joined(ws)) == Words(ws) <==> forall i :: 0 <= i < |ws| ==> PlainWord(ws[i])
  {
    hide Split, PlainWord;
    var s := TrimRight(TrimLeft(Joined(ws)));
    JoinedSpaced(ws);
    SplitCost(s);
    if forall i :: 0 <= i < |ws| ==> PlainWord(ws[i]) {
      JoinedEnds(ws);
      SplitJoined(ws);
      assert s == Joined(ws);
    }
  }

  // ----- a saved user

  predicate PlainTable(t: Table) {
    (forall i :: 0 <= i < |t.cmds| ==> Plain(t.cmds[i].name)) && forall x :: x in t.categories ==> Plain(x)
  }

  predicate PlainUser(u: User) {
    (forall p :: p in u.patterns ==> Plain(p)) &&
    forall id, i :: id in u.subs && 0 <= i < |u.subs[id]| ==> Plain(u.subs[id][i])
  }

  /** The words of the line ACLSaveToFile writes for a user. */
  function SavedWords(t: Table, name: string, u: User): seq<string> {
    ["user", name] + Describe(t, u)
  }

  /** ACLSaveToFile, for one user. */
  method SaveUser(t: Table, hash: string -> string, name: string, u: UserObject) returns (line: string)
    requires u.Valid() && TableOk(t) && UserOk(t, u.View())
    ensures line == Joined(SavedWords(t, name, u.View()))
  {
    hide Spaced, TableOk, UserOk, Describe, Joined;
    var descr, equal := DescribeUser(u, t, hash);
    line := "user " + name + " " + descr;
    var d := Describe(t, u.View());
    SpacedConcat(["user", name], d);
    SpacedTwo("user", name);
    JoinedSpaced(["user", name] + d);
    assert line + " " == "user " + name + " " + (descr + " ");
    DropSpace(line, Joined(["user", name] + d));
  }

  lemma DropSpace(a: string, b: string)
    requires a + " " == b + " "
    ensures a == b
  {
    assert |a + " "| == |a| + 1 && |b + " "| == |b| + 1;
    assert (a + " ")[..|a|] == a && (b + " ")[..|b|] == b;
  }

  lemma SpacedTwo(a: string, b: string)
    ensures Spaced([a, b]) == a + " " + b + " "
  {
    SpacedSnoc([a], b);
    SpacedSnoc([], a);
    assert [] + [a] == [a] && [a] + [b] == [a, b];
    assert Spaced([]) == "";
    assert "" + a == a;
  }

  // ----- which printed words are plain

  predicate AllPlain(ws: seq<string>) {
    forall i :: 0 <= i < |ws| ==> PlainWord(ws[i])
  }

  lemma AllPlainConcat(a: seq<string>, b: seq<string>)
    ensures AllPlain(a + b) <==> AllPlain(a) && AllPlain(b)
  {
    hide PlainWord;
    assert forall i :: 0 <= i < |a| ==> a[i] == (a + b)[i];
    assert forall i :: 0 <= i < |b| ==> b[i] == (a + b)[|a| + i];
  }

  lemma PlainConcat(a: string, b: string)
    ensures Plain(a + b) <==> Plain(a) && Plain(b)
  {
    hide Special;
    assert forall i :: 0 <= i < |a| ==> a[i] == (a + b)[i];
    assert forall i :: 0 <= i < |b| ==> b[i] == (a + b)[|a| + i];
  }

  lemma PlainPrefix(p: string, x: string)
    requires PlainWord(p)
    ensures PlainWord(p + x) <==> Plain(x)
  {
    hide Special;
    PlainConcat(p, x);
    assert (p + x)[0] == p[0];
  }

  lemma {:induction false} PrefixedPlain(p: string, q: seq<string>)
    requires PlainWord(p)
    ensures AllPlain(Prefixed(p, q)) <==> forall i :: 0 <= i < |q| ==> Plain(q[i])
  {
    hide PlainWord, Plain;
    if q != [] {
      PrefixedPlain(p, q[1..]);
      PlainPrefix(p, q[0]);
      AllPlainConcat([p + q[0]], Prefixed(p, q[1..]));
      assert [p + q[0]][0] == p + q[0];
    }
  }

  lemma {:induction false} HashesPlain(q: seq<string>)
    requires forall x :: x in q ==> IsHash(x)
    ensures AllPlain(Prefixed("#", q))
  {
    PrefixedPlain("#", q);
    forall i | 0 <= i < |q|
      ensures Plain(q[i])
    {
      assert IsHash(q[i]);
    }
  }

  lemma {:induction false} CategoriesPlain(t: Table, u: User, cats: seq<string>)
    requires forall x :: x in cats ==> Plain(x)
    ensures AllPlain(CategoryOps(t, u, cats))
  {
    hide Plain, Emits, PlainWord;
    if cats != [] {
      CategoriesPlain(t, u, cats[1..]);
      SignsPlain();
      var p := if Additive(u) then "+@" else "-@";
      PlainPrefix(p, cats[0]);
      AllPlainConcat([p + cats[0]], CategoryOps(t, u, cats[1..]));
      assert [p + cats[0]][0] == p + cats[0];
      AllPlainConcat([], CategoryOps(t, u, cats[1..]));
      assert [] + CategoryOps(t, u, cats[1..]) == CategoryOps(t, u, cats[1..]);
    }
  }

  lemma SignsPlain()
    ensures PlainWord("+") && PlainWord("-") && PlainWord("+@") && PlainWord("-@") && PlainWord("~") && PlainWord("#")
    ensures Plain("|")
    ensures PlainWord("on") && PlainWord("off") && PlainWord("nopass") && PlainWord("~*") && PlainWord("+@all")
    ensures PlainWord("-@all")
    ensures PlainWord("user")
  {
  }

  predicate SubsPlain(u: User, c: Command) {
    forall i :: 0 <= i < |SubsOf(u, c.id)| ==> Plain(SubsOf(u, c.id)[i])
  }

  lemma CommandPlain(u: User, fake: set<nat>, c: Command)
    requires Plain(c.name) && (c.id in u.bits ==> c.id !in u.subs)
    ensures AllPlain(CommandOps(u, fake, c)) <==> SubsPlain(u, c)
  {
    hide PlainWord, Plain;
    SignsPlain();
    PlainPrefix("+", c.name);
    PlainPrefix("-", c.name);
    assert [("+" + c.name)][0] == "+" + c.name && [("-" + c.name)][0] == "-" + c.name;
    PlainPrefix("+" + c.name, "|");
    AllPlainConcat(FixOp(u, fake, c), SubOps(u, c));
    PrefixedPlain("+" + c.name + "|", SubsOf(u, c.id));
  }

  lemma {:induction false} FixesPlain(u: User, fake: set<nat>, cmds: seq<Command>)
    requires forall i :: 0 <= i < |cmds| ==> Plain(cmds[i].name) && (cmds[i].id in u.bits ==> cmds[i].id !in u.subs)
    ensures AllPlain(FixOps(u, fake, cmds)) <==> forall i :: 0 <= i < |cmds| ==> SubsPlain(u, cmds[i])
  {
    hide Plain, CommandOps, SubsPlain, PlainWord;
    if cmds != [] {
      CommandPlain(u, fake, cmds[0]);
      FixesPlain(u, fake, cmds[1..]);
      AllPlainConcat(CommandOps(u, fake, cmds[0]), FixOps(u, fake, cmds[1..]));
    }
  }

  lemma SubsCovered(t: Table, u: User)
    requires SubsOk(t.cmds, u)
    ensures (forall i :: 0 <= i < |t.cmds| ==> SubsPlain(u, t.cmds[i])) <==>
            forall id, i :: id in u.subs && 0 <= i < |u.subs[id]| ==> Plain(u.subs[id][i])
  {
    hide Plain, SubListOk;
    if forall i :: 0 <= i < |t.cmds| ==> SubsPlain(u, t.cmds[i]) {
      forall id, i | id in u.subs && 0 <= i < |u.subs[id]|
        ensures Plain(u.subs[id][i])
      {
        var k :| 0 <= k < |t.cmds| && t.cmds[k].id == id;
        assert SubsPlain(u, t.cmds[k]) && SubsOf(u, t.cmds[k].id) == u.subs[id];
        assert Plain(SubsOf(u, t.cmds[k].id)[i]);
      }
    }
  }

  /** What is printed of a user is plain iff its key patterns and subcommands are. */
  lemma DescribePlain(t: Table, u: User)
    requires PlainTable(t) && UserOk(t, u)
    ensures AllPlain(Describe(t, u)) <==> PlainUser(u)
  {
    hide Plain, PlainWord, CategoryOps, FixOps, CategoryBits, SubListOk, Prefixed, AllPlain, SubsPlain, HasId, IsHash,
      HasSpaces, Distinct;
    SignsPlain();
    HashesPlain(u.passwords);
    PrefixedPlain("~", u.patterns);
    CategoriesPlain(t, u, t.categories);
    FixesPlain(u, CategoryBits(t, u, t.categories, Base(u)).bits, t.cmds);
    SubsCovered(t, u);
    FlagsPlain(u);
    OnePlain("~*");
    OnePlain(if Additive(u) then "-@all" else "+@all");
    var all := [if Additive(u) then "-@all" else "+@all"];
    var cats := CategoryOps(t, u, t.categories);
    var fixes := FixOps(u, CategoryBits(t, u, t.categories, Base(u)).bits, t.cmds);
    AllPlainConcat(all, cats);
    AllPlainConcat(all + cats, fixes);
    AllPlainConcat(FlagOps(u), Prefixed("#", u.passwords));
    AllPlainConcat(FlagOps(u) + Prefixed("#", u.passwords), KeyOps(u));
    AllPlainConcat(FlagOps(u) + Prefixed("#", u.passwords) + KeyOps(u), RuleOps(t, u));
    assert forall p :: p in u.patterns <==> exists i :: 0 <= i < |u.patterns| && u.patterns[i] == p;
  }

  lemma OnePlain(w: string)
    ensures AllPlain([w]) <==> PlainWord(w)
  {
    assert [w][0] == w;
  }

  lemma FlagsPlain(u: User)
    ensures AllPlain(FlagOps(u))
  {
    hide PlainWord;
    SignsPlain();
  }

  // ----- the theorems

  /** The line saved for a user gives its words back iff its name, its key patterns and its subcommands hold no white
      space that ends a word and no quote. */
  lemma SavedLineIff(t: Table, name: string, u: User)
    requires PlainTable(t) && UserOk(t, u)
    ensures LineOf(Joined(SavedWords(t, name, u))) == Words(SavedWords(t, name, u)) <==> PlainWord(name) && PlainUser(u)
  {
    hide PlainWord, Describe, PlainUser, LineOf, UserOk, PlainTable, Joined;
    var ws := SavedWords(t, name, u);
    JoinedLineIff(ws);
    DescribePlain(t, u);
    AllPlainConcat(["user", name], Describe(t, u));
    SignsPlain();
    assert ["user", name][0] == "user" && ["user", name][1] == name;
    assert AllPlain(ws) <==> forall i :: 0 <= i < |ws| ==> PlainWord(ws[i]);
  }

  /** What a replayed user is. */
  function Normal(u: User): User {
    u.(allcommands := u.bits == AllBits())
  }

  /** Such a line is accepted, and defines the user again. */
  lemma SavedLineLoads(t: Table, hash: Hash, users: Users, name: string, u: User)
    requires TableOk(t) && Digests(hash) && PlainTable(t) && UserOk(t, u) && PlainWord(name) && PlainUser(u)
    requires !HasSpaces(name)
    ensures var l := LineOf(Joined(SavedWords(t, name, u)));
            Accepted(t, hash, FRESH, l) && AfterLine(t, hash, users, l) == users[name := Normal(u)]
  {
    hide PlainWord, Describe, PlainUser, LineOf, UserOk, PlainTable, Joined, TableOk, Digests, HasSpaces, SetUserAll;
    SavedLineIff(t, name, u);
    RoundTrip(t, hash, u);
    assert SavedWords(t, name, u)[2..] == Describe(t, u);
    assert ResetUser(FRESH) == FRESH;
  }

  /** The lines saved for the users of some names. */
  function SavedLines(t: Table, users: Users, names: seq<string>): seq<Line>
    requires forall n :: n in names ==> n in users
  {
    if names == [] then []
    else [LineOf(Joined(SavedWords(t, names[0], users[names[0]])))] + SavedLines(t, users, names[1..])
  }

  ghost predicate Savable(t: Table, users: Users) {
    forall n :: n in users ==> UserOk(t, users[n]) && PlainWord(n) && !HasSpaces(n) && PlainUser(users[n])
  }

  /** Saving all users and loading the file gives them all back, in whatever order they were saved. */
  lemma {:induction false} SaveThenLoad(t: Table, hash: Hash, users: Users, names: seq<string>, start: Users)
    requires TableOk(t) && Digests(hash) && PlainTable(t) && Savable(t, users) && forall n :: n in names ==> n in users
    ensures var lines := SavedLines(t, users, names);
            AllAccepted(t, hash, lines) &&
            Meaning(t, hash, start, lines) == start + (map n | n in names :: Normal(users[n]))
    decreases |names|
  {
    hide PlainWord, PlainUser, UserOk, PlainTable, TableOk, Digests, HasSpaces, LineOf, Joined, Accepted, SetUserAll,
      Describe, Normal;
    var lines := SavedLines(t, users, names);
    if names == [] {
      NoLines(t, hash, start);
    } else {
      var n := names[0];
      SavedLineLoads(t, hash, start, n, users[n]);
      var next := start[n := Normal(users[n])];
      SaveThenLoad(t, hash, users, names[1..], next);
      var rest := SavedLines(t, users, names[1..]);
      assert lines[1..] == rest && lines[0] == LineOf(Joined(SavedWords(t, n, users[n])));
      AcceptedHead(t, hash, lines);
      MeaningHead(t, hash, start, lines);
      SavedNext(users, names, start);
    }
  }

  lemma SavedNext(users: Users, names: seq<string>, start: Users)
    requires names != [] && forall n :: n in names ==> n in users
    ensures start + (map n | n in names :: Normal(users[n])) ==
            start[names[0] := Normal(users[names[0]])] + (map n | n in names[1..] :: Normal(users[n]))
  {
    hide Normal;
    assert forall n :: n in names <==> n == names[0] || n in names[1..];
  }

  lemma AcceptedHead(t: Table, hash: Hash, lines: seq<Line>)
    requires lines != []
    ensures AllAccepted(t, hash, lines) <==> Accepted(t, hash, FRESH, lines[0]) && AllAccepted(t, hash, lines[1..])
  {
    hide Accepted;
    assert forall i :: 0 < i < |lines| ==> lines[i] == lines[1..][i - 1];
  }

  // ----- two users that do not survive

  lemma {:induction false} NoClosing(s: string, cur: string)
    requires '"' !in s
    ensures ReadToken(Double, s, cur) == Broken
    decreases |s|
  {
    if s != [] {
      if HexEscape(s) {
        NoClosing(s[4..], cur + [(16 * HexDigit(s[2]).value + HexDigit(s[3]).value) as char]);
      } else if |s| >= 2 && s[0] == '\\' && s[1] != '\0' {
        NoClosing(s[2..], cur + [Escaped(s[1])]);
      } else if !End(s) {
        NoClosing(s[1..], cur + [s[0]]);
      }
    }
  }

  /** A word with one quote in it, and no quote behind it. */
  lemma OpenQuote(a: string, b: string)
    requires PlainWord(a) && '"' !in b
    ensures Split(a + "\"" + b) == None
  {
    hide ReadToken, Split;
    var s := a + "\"" + b;
    assert s == a + ("\"" + b) && s[0] == a[0];
    ReadPlain(a, "\"" + b, "");
    assert "" + a == a;
    OpensQuote(b, a);
    NoClosing(b, a);
    SplitStep(s);
  }

  lemma OpensQuote(b: string, cur: string)
    ensures ReadToken(Bare, "\"" + b, cur) == ReadToken(Double, b, cur)
  {
    assert ("\"" + b)[1..] == b;
  }

  const QUOTED: User := FRESH.(patterns := ["a\"b"])

  lemma QuotedIsReached(t: Table, hash: Hash)
    ensures SetUserAll(t, hash, FRESH, ["~a\"b"]) == Ok(QUOTED)
  {
    hide Parse, SetUserAll;
    var p := "a\"b";
    assert !HasSpaces(p);
    ParsePattern(p);
    assert "~" + p == "~a\"b";
    ReplayOne(t, hash, FRESH, "~a\"b");
    assert [] + [p] == [p];
  }

  lemma {:induction false} NoneOn(cmds: seq<Command>, category: string)
    ensures Count(cmds, QUOTED, category, true) == 0
  {
    if cmds != [] {
      NoneOn(cmds[1..], category);
    }
  }

  lemma {:induction false} NothingEmitted(t: Table, cats: seq<string>)
    ensures CategoryOps(t, QUOTED, cats) == [] && CategoryBits(t, QUOTED, cats, Base(QUOTED)) == Base(QUOTED)
  {
    if cats != [] {
      NoneOn(t.cmds, cats[0]);
      NothingEmitted(t, cats[1..]);
    }
  }

  lemma {:induction false} NothingToFix(cmds: seq<Command>)
    ensures FixOps(QUOTED, {}, cmds) == []
  {
    if cmds != [] {
      NothingToFix(cmds[1..]);
    }
  }

  lemma QuotedWords(t: Table)
    ensures SavedWords(t, "default", QUOTED) == ["user", "default", "off", "~a\"b", "-@all"]
  {
    hide CategoryOps, FixOps, CategoryBits;
    NothingEmitted(t, t.categories);
    NothingToFix(t.cmds);
    assert QUOTED.patterns[1..] == [];
    assert Prefixed("~", QUOTED.patterns) == ["~" + "a\"b"] + [];
    assert "~" + "a\"b" == "~a\"b";
    assert RuleOps(t, QUOTED) == ["-@all"];
  }

  /** A quote in a key pattern: the server accepts the pattern, prints it as it is, and then finds unbalanced quotes in
      its own line, so that the whole saved file is rejected. */
  lemma QuoteBreaksTheFile(t: Table, hash: Hash, lines: seq<Line>)
    requires LineOf(Joined(SavedWords(t, "default", QUOTED))) in lines
    ensures SetUserAll(t, hash, FRESH, ["~a\"b"]) == Ok(QUOTED)
    ensures LineOf(Joined(SavedWords(t, "default", QUOTED))) == Unbalanced && !AllAccepted(t, hash, lines)
  {
    hide SavedWords, Split, SetUserAll;
    QuotedIsReached(t, hash);
    QuotedWords(t);
    var ws := SavedWords(t, "default", QUOTED);
    var tail := "~a" + "\"" + "b -@all";
    OpenQuote("~a", "b -@all");
    SplitHead("off", tail);
    SplitHead("default", "off" + " " + tail);
    SplitHead("user", "default" + " " + ("off" + " " + tail));
    QuotedText(tail);
    QuotedEnds(tail);
  }

  lemma QuotedText(tail: string)
    requires tail == "~a" + "\"" + "b -@all"
    ensures Joined(["user", "default", "off", "~a\"b", "-@all"]) ==
            "user" + " " + ("default" + " " + ("off" + " " + tail))
  {
    var ws := ["user", "default", "off", "~a\"b", "-@all"];
    assert ws[1..] == ["default", "off", "~a\"b", "-@all"] && ws[1..][1..] == ["off", "~a\"b", "-@all"];
    assert ws[1..][1..][1..] == ["~a\"b", "-@all"] && ["~a\"b", "-@all"][1..] == ["-@all"];
    assert Joined(["~a\"b", "-@all"]) == "~a\"b" + " " + "-@all";
    assert "~a\"b" + " " + "-@all" == tail;
    assert Joined(ws[1..][1..]) == "off" + " " + tail;
  }

  lemma QuotedEnds(tail: string)
    requires tail == "~a" + "\"" + "b -@all"
    ensures var s := "user" + " " + ("default" + " " + ("off" + " " + tail)); TrimRight(TrimLeft(s)) == s && !End(s)
  {
    var s := "user" + " " + ("default" + " " + ("off" + " " + tail));
    assert s[0] == 'u' && s[|s| - 1] == 'l';
  }

  /** A space in a subcommand: the server accepts it, and its saved line reads as other words. */
  lemma SpaceChangesTheLine(t: Table, hash: Hash, i: nat, name: string)
    requires TableOk(t) && Digests(hash) && PlainTable(t) && i < |t.cmds|
    ensures var r := SetUserAll(t, hash, FRESH, ["+" + t.cmds[i].name + "|a b"]);
            r.Ok? && LineOf(Joined(SavedWords(t, name, r.u))) != Words(SavedWords(t, name, r.u))
  {
    hide SetUserAll, LineOf, Joined, SavedWords, UserOk, Digests, PlainTable, TableOk;
    var c := t.cmds[i];
    var op := "+" + c.name + "|a b";
    SpacedSub(t, hash, i);
    FreshOk(t);
    ReachableOk(t, hash, FRESH, [op]);
    var u := FRESH.(subs := map[c.id := ["a b"]]);
    assert Special("a b"[1]) && !Plain(u.subs[c.id][0]);
    SavedLineIff(t, name, u);
  }

  lemma SpacedSub(t: Table, hash: Hash, i: nat)
    requires TableOk(t) && i < |t.cmds|
    ensures SetUserAll(t, hash, FRESH, ["+" + t.cmds[i].name + "|a b"]) ==
            Ok(FRESH.(subs := map[t.cmds[i].id := ["a b"]]))
  {
    hide Parse, SetUserAll, IdOf, NameOk;
    var c := t.cmds[i];
    var op := "+" + c.name + "|" + "a b";
    assert op == "+" + c.name + "|a b";
    ParseSub(c.name, "a b");
    IdFound(t.cmds, i);
    ReplayOne(t, hash, FRESH, op);
    assert {} - {c.id} == {} && [] + ["a b"] == ["a b"];
  }
}
