/** The nginx site scanner of the agent (agent/internal/actions/ssl.go).

    The scanner is one character loop over the text with its comments removed.  It is
    specified by a fold over characters (`Parse`), and `Parse` is shown to agree with
    a definition on configuration trees (`Sites`) for every way of laying the tree out
    as text.
 */
module Nginx {
  import opened Common

  datatype Site = Site(names: seq<string>, ssl: bool, certPath: string, root: string, proxyPass: string)

  const EMPTY_SITE := Site([], false, "", "", "")

  // ----- Comment removal -----

  function Lines(text: string): (ls: seq<string>)
    ensures |ls| > 0
  {
    if text == "" then [""]
    else
      var rest := Lines(text[1..]);
      if text[0] == '\n' then [""] + rest
      else [[text[0]] + rest[0]] + rest[1..]
  }

  function CutComment(line: string): string {
    if line == "" || line[0] == '#' then "" else [line[0]] + CutComment(line[1..])
  }

  function CutAll(ls: seq<string>): (r: seq<string>)
    ensures |r| == |ls|
  {
    if ls == [] then [] else CutAll(ls[..|ls| - 1]) + [CutComment(ls[|ls| - 1])]
  }

  function JoinWithSpace(ls: seq<string>): string {
    if ls == [] then ""
    else if |ls| == 1 then ls[0]
    else ls[0] + " " + JoinWithSpace(ls[1..])
  }

  /** The same removal as an automaton over characters. */
  function Strip(text: string, comment: bool): string {
    if text == "" then ""
    else if text[0] == '\n' then " " + Strip(text[1..], false)
    else if comment || text[0] == '#' then Strip(text[1..], true)
    else [text[0]] + Strip(text[1..], false)
  }

  lemma {:induction false} CutAllCons(l: string, ls: seq<string>)
    ensures CutAll([l] + ls) == [CutComment(l)] + CutAll(ls)
  {
    if ls == [] {
    } else {
      CutAllCons(l, ls[..|ls| - 1]);
      assert ([l] + ls)[..|[l] + ls| - 1] == [l] + ls[..|ls| - 1];
    }
  }

  lemma {:induction false} AtNewline(rest: seq<string>)
    requires |rest| > 0
    ensures CutAll([""] + rest)[1..] == CutAll(rest)
    ensures JoinWithSpace(CutAll([""] + rest)) == " " + JoinWithSpace(CutAll(rest))
    ensures JoinWithSpace([""] + CutAll(rest)) == " " + JoinWithSpace(CutAll(rest))
  {
    CutAllCons("", rest);
    assert ([""] + CutAll(rest))[1..] == CutAll(rest);
    assert "" + " " + JoinWithSpace(CutAll(rest)) == " " + JoinWithSpace(CutAll(rest));
  }

  lemma {:induction false} AtCharacter(c: char, rest: seq<string>)
    requires |rest| > 0
    ensures var ls := [[c] + rest[0]] + rest[1..];
            && CutAll(ls)[1..] == CutAll(rest)[1..]
            && JoinWithSpace(CutAll(ls)) == if c == '#' then JoinWithSpace([""] + CutAll(rest)[1..])
                  else [c] + JoinWithSpace(CutAll(rest))
  {
    var tail := CutAll(rest[1..]);
    CutAllCons(rest[0], rest[1..]);
    assert rest == [rest[0]] + rest[1..];
    CutAllCons([c] + rest[0], rest[1..]);
    assert ([c] + rest[0])[1..] == rest[0];
    JoinHead([c], CutComment(rest[0]), tail);
  }

  lemma {:induction false} StripIsLineByLine(text: string)
    ensures Strip(text, false) == JoinWithSpace(CutAll(Lines(text)))
    ensures Strip(text, true) == JoinWithSpace([""] + CutAll(Lines(text))[1..])
  {
    if text == "" {
      assert CutAll([""]) == [CutComment("")];
    } else {
      StripIsLineByLine(text[1..]);
      if text[0] == '\n' {
        AtNewline(Lines(text[1..]));
      } else {
        AtCharacter(text[0], Lines(text[1..]));
      }
    }
  }

  lemma {:induction false} JoinHead(a: string, b: string, tail: seq<string>)
    ensures JoinWithSpace([a + b] + tail) == a + JoinWithSpace([b] + tail)
  {
    assert ([a + b] + tail)[1..] == tail == ([b] + tail)[1..];
    assert (a + b) + " " + JoinWithSpace(tail) == a + (b + " " + JoinWithSpace(tail));
  }

  // ----- The character machine -----

  datatype Scanner = Scanner(out: seq<Site>, stack: seq<string>, cur: Option<Site>, serverDepth: int,
                             word: string, words: seq<string>)

  const START := Scanner([], [], None, -1, "", [])

  function KeepNames(args: seq<string>): seq<string> {
    if args == [] then []
    else
      var n := args[|args| - 1];
      KeepNames(args[..|args| - 1]) + if n != "_" && n != "localhost" && n != "\"\"" then [n] else []
  }

  predicate TlsArg(a: string) {
    a == "ssl" || a == "443" || (|a| >= 4 && a[|a| - 4..] == ":443")
  }

  lemma TlsArgIff(a: string)
    ensures TlsArg(a) <==> a == "ssl" || a == "443" || exists host :: a == host + ":443"
  {
    if |a| >= 4 && a[|a| - 4..] == ":443" {
      assert a == a[..|a| - 4] + ":443";
    }
    if host :| a == host + ":443" {
      assert a[|a| - 4..] == ":443";
    }
  }

  /** Names are kept one by one and in order, but for the three that are no names. */
  lemma {:induction false} KeepNamesConcat(a: seq<string>, b: seq<string>)
    ensures KeepNames(a + b) == KeepNames(a) + KeepNames(b)
    ensures forall n: string :: KeepNames([n]) == if n in {"_", "localhost", "\"\""} then [] else [n]
  {
    if b == [] {
      assert a + b == a;
    } else {
      assert (a + b)[..|a + b| - 1] == a + b[..|b| - 1];
      KeepNamesConcat(a, b[..|b| - 1]);
    }
  }

  predicate HasTls(args: seq<string>) {
    exists i :: 0 <= i < |args| && TlsArg(args[i])
  }

  function Apply(site: Site, direct: bool, words: seq<string>): Site {
    if words == [] then site
    else
      var args := words[1..];
      match words[0]
      case "server_name" => if direct then site.(names := site.names + KeepNames(args)) else site
      case "ssl_certificate" => if args != [] then site.(certPath := args[0], ssl := true) else site
      case "listen" => site.(ssl := site.ssl || HasTls(args))
      case "root" => if args != [] && site.root == "" then site.(root := args[0]) else site
      case "proxy_pass" => if args != [] && site.proxyPass == "" then site.(proxyPass := args[0]) else site
      case _ => site
  }

  function Flush(s: Scanner): Scanner {
    if s.word == "" then s else s.(words := s.words + [s.word], word := "")
  }

  function OnSemi(s: Scanner): Scanner {
    if s.cur.Some? then
      s.(cur := Some(Apply(s.cur.value, |s.stack| == s.serverDepth + 1, s.words)), words := [])
    else
      s.(words := [])
  }

  function OnOpen(s: Scanner): Scanner {
    var opens := s.words != [] && s.words[0] == "server" && s.cur.None?;
    s.(cur := if opens then Some(EMPTY_SITE) else s.cur,
       serverDepth := if opens then |s.stack| else s.serverDepth,
       stack := s.stack + [if s.words != [] then s.words[0] else ""],
       words := [])
  }

  function OnClose(s: Scanner): Scanner {
    if s.stack == [] then s.(words := [])
    else
      var stack := s.stack[..|s.stack| - 1];
      if s.cur.Some? && |stack| == s.serverDepth then
        s.(out := if s.cur.value.names != [] then s.out + [s.cur.value] else s.out,
           stack := stack, cur := None, serverDepth := -1, words := [])
      else
        s.(stack := stack, words := [])
  }

  function OnChar(s: Scanner, ch: char): Scanner {
    if ch == ' ' || ch == '\t' || ch == '\r' then Flush(s)
    else if ch == ';' then OnSemi(Flush(s))
    else if ch == '{' then OnOpen(Flush(s))
    else if ch == '}' then OnClose(Flush(s))
    else s.(word := s.word + [ch])
  }

  function Scan(s: Scanner, src: string): Scanner
    decreases |src|
  {
    if src == "" then s else Scan(OnChar(s, src[0]), src[1..])
  }

  function Parse(text: string): seq<Site> {
    Scan(START, Strip(text, false)).out
  }

  lemma {:induction false} ScanConcat(s: Scanner, a: string, b: string)
    ensures Scan(s, a + b) == Scan(Scan(s, a), b)
    decreases |a|
  {
    if a == "" {
      assert a + b == b;
    } else {
      assert (a + b)[1..] == a[1..] + b;
      ScanConcat(OnChar(s, a[0]), a[1..], b);
    }
  }

  lemma ScanStep(src: string, i: nat)
    requires i < |src|
    ensures Scan(START, src[..i + 1]) == OnChar(Scan(START, src[..i]), src[i])
  {
    assert src[..i + 1] == src[..i] + [src[i]];
    ScanConcat(START, src[..i], [src[i]]);
    assert [src[i]][1..] == "";
  }

  /** The body of the ';' case: updates the current site with one directive. */
  method ApplyDirective(site: Site, direct: bool, words: seq<string>) returns (r: Site)
    ensures r == Apply(site, direct, words)
  {
    r := site;
    if |words| > 0 {
      var args := words[1..];
      match words[0] {
        case "server_name" =>
          if direct {
            var names := site.names;
            for j := 0 to |args|
              invariant names == site.names + KeepNames(args[..j])
            {
              assert args[..j + 1][..j] == args[..j];
              if args[j] != "_" && args[j] != "localhost" && args[j] != "\"\"" {
                names := names + [args[j]];
              }
            }
            assert args[..|args|] == args;
            r := r.(names := names);
          }
        case "ssl_certificate" =>
          if |args| > 0 {
            r := r.(certPath := args[0], ssl := true);
          }
        case "listen" =>
          var ssl := site.ssl;
          for j := 0 to |args|
            invariant ssl == (site.ssl || HasTls(args[..j]))
          {
            assert forall i :: 0 <= i < j + 1 ==> args[..j + 1][i] == args[i];
            assert forall i :: 0 <= i < j ==> args[..j][i] == args[i];
            if TlsArg(args[j]) {
              assert TlsArg(args[..j + 1][j]);
              ssl := true;
            }
          }
          assert args[..|args|] == args;
          r := r.(ssl := ssl);
        case "root" =>
          if |args| > 0 && site.root == "" {
            r := r.(root := args[0]);
          }
        case "proxy_pass" =>
          if |args| > 0 && site.proxyPass == "" {
            r := r.(proxyPass := args[0]);
          }
        case _ =>
      }
    }
  }

  method ParseNginxConf(text: string) returns (out: seq<Site>)
    ensures out == Parse(text)
  {
    var lines := [];
    var all := Lines(text);
    for k := 0 to |all|
      invariant lines == CutAll(all[..k])
    {
      assert all[..k + 1][..k] == all[..k];
      lines := lines + [CutComment(all[k])];
    }
    assert all[..|all|] == all;
    var src := JoinWithSpace(lines);
    StripIsLineByLine(text);

    out := [];
    var stack: seq<string> := [];
    var cur: Option<Site> := None;
    var serverDepth := -1;
    var word, words := "", [];
    for i := 0 to |src|
      invariant Scanner(out, stack, cur, serverDepth, word, words) == Scan(START, src[..i])
    {
      ScanStep(src, i);
      var ch := src[i];
      if ch == ' ' || ch == '\t' || ch == '\r' || ch == ';' || ch == '{' || ch == '}' {
        if |word| > 0 {
          words, word := words + [word], "";
        }
        if ch == ';' {
          if cur.Some? {
            var site := ApplyDirective(cur.value, |stack| == serverDepth + 1, words);
            cur := Some(site);
          }
          words := [];
        } else if ch == '{' {
          if |words| > 0 && words[0] == "server" && cur.None? {
            cur, serverDepth := Some(EMPTY_SITE), |stack|;
          }
          var name := if |words| > 0 then words[0] else "";
          stack, words := stack + [name], [];
        } else if ch == '}' {
          words := [];
          if |stack| > 0 {
            stack := stack[..|stack| - 1];
            if cur.Some? && |stack| == serverDepth {
              if |cur.value.names| > 0 {
                out := out + [cur.value];
              }
              cur, serverDepth := None, -1;
            }
          }
        }
      } else {
        word := word + [ch];
      }
    }
    assert src[..|src|] == src;
  }

  // ----- Configuration trees and the sites they declare -----

  datatype Conf =
    | End
    | Directive(words: seq<string>, rest: Conf)
    | Block(words: seq<string>, body: Conf, rest: Conf)

  predicate WordChar(c: char) {
    c != ' ' && c != '\t' && c != '\r' && c != '\n' && c != ';' && c != '{' && c != '}' && c != '#'
  }

  predicate IsWord(w: string) {
    w != "" && forall i :: 0 <= i < |w| ==> WordChar(w[i])
  }

  predicate AllWords(ws: seq<string>) {
    forall i :: 0 <= i < |ws| ==> IsWord(ws[i])
  }

  predicate WellFormed(conf: Conf) {
    match conf
    case End => true
    case Directive(ws, rest) => AllWords(ws) && WellFormed(rest)
    case Block(ws, body, rest) => AllWords(ws) && WellFormed(body) && WellFormed(rest)
  }

  /** Every directive of a tree, at any depth, in document order. */
  function Directives(conf: Conf): seq<seq<string>> {
    match conf
    case End => []
    case Directive(ws, rest) => [ws] + Directives(rest)
    case Block(_, body, rest) => Directives(body) + Directives(rest)
  }

  /** The server names given directly at this level, not inside nested blocks. */
  function DirectNames(conf: Conf): seq<string> {
    match conf
    case End => []
    case Directive(ws, rest) =>
      (if ws != [] && ws[0] == "server_name" then KeepNames(ws[1..]) else []) + DirectNames(rest)
    case Block(_, _, rest) => DirectNames(rest)
  }

  predicate Gives(ws: seq<string>, name: string) {
    |ws| >= 2 && ws[0] == name
  }

  /** The first argument of the first directive `name` that has one, or "". */
  function FirstArg(name: string, ds: seq<seq<string>>): string {
    if ds == [] then "" else if Gives(ds[0], name) then ds[0][1] else FirstArg(name, ds[1..])
  }

  /** The first argument of the last directive `name` that has one, or "". */
  function LastArg(name: string, ds: seq<seq<string>>): string {
    if ds == [] then ""
    else if Gives(ds[|ds| - 1], name) then ds[|ds| - 1][1]
    else LastArg(name, ds[..|ds| - 1])
  }

  predicate MeansTls(ws: seq<string>) {
    Gives(ws, "ssl_certificate") || (ws != [] && ws[0] == "listen" && HasTls(ws[1..]))
  }

  function SiteOf(body: Conf): Site {
    var ds := Directives(body);
    Site(DirectNames(body), exists i :: 0 <= i < |ds| && MeansTls(ds[i]), LastArg("ssl_certificate", ds),
         FirstArg("root", ds), FirstArg("proxy_pass", ds))
  }

  function BlockSites(ws: seq<string>, body: Conf): seq<Site>
    decreases body, 1
  {
    if ws == [] || ws[0] != "server" then Sites(body)
    else if DirectNames(body) == [] then []
    else [SiteOf(body)]
  }

  /** A server block is one site, if it has a name; blocks inside it are absorbed. */
  function Sites(conf: Conf): seq<Site>
    decreases conf, 0
  {
    match conf
    case End => []
    case Directive(_, rest) => Sites(rest)
    case Block(ws, body, rest) => BlockSites(ws, body) + Sites(rest)
  }

  // ----- Laying a tree out as text -----

  datatype Token = Word(text: string) | Semi | Open | Close

  function WordTokens(ws: seq<string>): (r: seq<Token>)
    ensures |r| == |ws| && forall i :: 0 <= i < |ws| ==> r[i] == Word(ws[i])
  {
    if ws == [] then [] else [Word(ws[0])] + WordTokens(ws[1..])
  }

  function Tokens(conf: Conf): seq<Token> {
    match conf
    case End => []
    case Directive(ws, rest) => WordTokens(ws) + [Semi] + Tokens(rest)
    case Block(ws, body, rest) => WordTokens(ws) + [Open] + Tokens(body) + [Close] + Tokens(rest)
  }

  function TokenText(t: Token): string {
    match t
    case Word(w) => w
    case Semi => ";"
    case Open => "{"
    case Close => "}"
  }

  datatype Blank = Space | Tab | Return | Newline | Comment(text: string)

  predicate LegalBlank(b: Blank) {
    b.Comment? ==> '\n' !in b.text
  }

  predicate LegalGap(gap: seq<Blank>) {
    forall i :: 0 <= i < |gap| ==> LegalBlank(gap[i])
  }

  function BlankText(b: Blank): string {
    match b
    case Space => " "
    case Tab => "\t"
    case Return => "\r"
    case Newline => "\n"
    case Comment(t) => "#" + t + "\n"
  }

  function GapText(gap: seq<Blank>): string {
    if gap == [] then "" else BlankText(gap[0]) + GapText(gap[1..])
  }

  /** `gaps[i]` stands before `tokens[i]`; two adjacent words need a non-empty one. */
  predicate LegalLayout(tokens: seq<Token>, gaps: seq<seq<Blank>>) {
    |gaps| == |tokens| &&
    (forall i :: 0 <= i < |gaps| ==> LegalGap(gaps[i])) &&
    (forall i :: 0 < i < |gaps| ==> tokens[i].Word? && tokens[i - 1].Word? ==> gaps[i] != [])
  }

  function Render(tokens: seq<Token>, gaps: seq<seq<Blank>>, tail: string): string
    requires |gaps| == |tokens|
  {
    if tokens == [] then tail
    else GapText(gaps[0]) + (TokenText(tokens[0]) + Render(tokens[1..], gaps[1..], tail))
  }

  /** What may follow the last token: blanks, then possibly a comment without a newline. */
  function TailText(gap: seq<Blank>, open: Option<string>): string {
    GapText(gap) + if open.Some? then "#" + open.value else ""
  }

  function LayOut(conf: Conf, gaps: seq<seq<Blank>>, last: seq<Blank>, open: Option<string>): string
    requires |gaps| == |Tokens(conf)|
  {
    Render(Tokens(conf), gaps, TailText(last, open))
  }

  // ----- From characters to tokens -----

  function OnToken(s: Scanner, t: Token): Scanner {
    match t
    case Word(w) => s.(words := s.words + [w])
    case Semi => OnSemi(s)
    case Open => OnOpen(s)
    case Close => OnClose(s)
  }

  function ScanTokens(s: Scanner, ts: seq<Token>): Scanner
    decreases |ts|
  {
    if ts == [] then s else ScanTokens(OnToken(s, ts[0]), ts[1..])
  }

  lemma {:induction false} ScanTokensConcat(s: Scanner, a: seq<Token>, b: seq<Token>)
    ensures ScanTokens(s, a + b) == ScanTokens(ScanTokens(s, a), b)
    decreases |a|
  {
    if a == [] {
      assert a + b == b;
    } else {
      assert (a + b)[1..] == a[1..] + b;
      ScanTokensConcat(OnToken(s, a[0]), a[1..], b);
    }
  }

  lemma {:induction false} StripComment(t: string, rest: string)
    requires '\n' !in t
    ensures Strip(t + "\n" + rest, true) == " " + Strip(rest, false)
    ensures Strip(t, true) == ""
  {
    if t == "" {
      assert t + "\n" + rest == "\n" + rest;
    } else {
      assert (t + "\n" + rest)[1..] == t[1..] + "\n" + rest;
      assert (t + "\n" + rest)[0] == t[0];
      assert forall c :: c in t[1..] ==> c in t;
      StripComment(t[1..], rest);
    }
  }

  /** The blank a piece of white space or a comment leaves. */
  function Left(b: Blank): char {
    match b
    case Tab => '\t'
    case Return => '\r'
    case _ => ' '
  }

  lemma {:induction false} StripBlank(b: Blank, rest: string)
    requires LegalBlank(b)
    ensures Strip(BlankText(b) + rest, false) == [Left(b)] + Strip(rest, false)
  {
    match b
    case Comment(t) =>
      var text := "#" + (t + "\n" + rest);
      assert BlankText(b) + rest == text;
      assert text[0] == '#' && text[1..] == t + "\n" + rest;
      StripComment(t, rest);
    case _ =>
      assert (BlankText(b) + rest)[1..] == rest;
  }

  /** A gap flushes the word being read, if it is not empty, and does nothing else. */
  lemma {:induction false} ScanGap(s: Scanner, gap: seq<Blank>, rest: string)
    requires LegalGap(gap)
    ensures Scan(s, Strip(GapText(gap) + rest, false)) ==
            Scan(if gap == [] then s else Flush(s), Strip(rest, false))
    decreases |gap|
  {
    if gap == [] {
      assert GapText(gap) + rest == rest;
    } else {
      var more := GapText(gap[1..]) + rest;
      assert GapText(gap) + rest == BlankText(gap[0]) + more;
      StripBlank(gap[0], more);
      assert ([Left(gap[0])] + Strip(more, false))[1..] == Strip(more, false);
      ScanGap(Flush(s), gap[1..], rest);
    }
  }

  lemma {:induction false} ScanWord(s: Scanner, w: string, rest: string)
    requires forall i :: 0 <= i < |w| ==> WordChar(w[i])
    ensures Scan(s, Strip(w + rest, false)) == Scan(s.(word := s.word + w), Strip(rest, false))
    decreases |w|
  {
    if w == "" {
      assert w + rest == rest && s.word + w == s.word;
    } else {
      assert (w + rest)[1..] == w[1..] + rest;
      assert WordChar(w[0]);
      var more := Strip(w[1..] + rest, false);
      assert ([w[0]] + more)[1..] == more;
      ScanWord(s.(word := s.word + [w[0]]), w[1..], rest);
      assert s.word + [w[0]] + w[1..] == s.word + w;
    }
  }

  lemma ScanPunct(s: Scanner, t: Token, rest: string)
    requires !t.Word?
    ensures Scan(s, Strip(TokenText(t) + rest, false)) == Scan(OnToken(Flush(s), t), Strip(rest, false))
  {
    assert (TokenText(t) + rest)[1..] == rest;
    assert (TokenText(t) + Strip(rest, false))[1..] == Strip(rest, false);
  }

  lemma {:induction false} ScanTail(s: Scanner, last: seq<Blank>, open: Option<string>)
    requires LegalGap(last) && (open.Some? ==> '\n' !in open.value)
    ensures Flush(Scan(s, Strip(TailText(last, open), false))) == Flush(s)
  {
    var end := if open.Some? then "#" + open.value else "";
    ScanGap(s, last, end);
    if open.Some? {
      StripComment(open.value, "");
    }
  }

  /** A gap and a token. */
  lemma {:induction false} ScanToken(s: Scanner, gap: seq<Blank>, t: Token, more: string) returns (s2: Scanner)
    requires LegalGap(gap) && (t.Word? ==> IsWord(t.text)) && (t.Word? && s.word != "" ==> gap != [])
    ensures Scan(s, Strip(GapText(gap) + (TokenText(t) + more), false)) == Scan(s2, Strip(more, false))
    ensures Flush(s2) == OnToken(Flush(s), t) && (!t.Word? ==> s2.word == "")
  {
    ScanGap(s, gap, TokenText(t) + more);
    var s1 := if gap == [] then s else Flush(s);
    if t.Word? {
      s2 := s1.(word := s1.word + t.text);
      ScanWord(s1, t.text, more);
      assert s2.word == t.text;
    } else {
      s2 := OnToken(Flush(s1), t);
      ScanPunct(s1, t, more);
    }
  }

  lemma {:induction false} ScanRendered(s: Scanner, ts: seq<Token>, gaps: seq<seq<Blank>>,
                                        last: seq<Blank>, open: Option<string>)
    requires LegalLayout(ts, gaps) && LegalGap(last) && (open.Some? ==> '\n' !in open.value)
    requires forall i :: 0 <= i < |ts| && ts[i].Word? ==> IsWord(ts[i].text)
    requires ts != [] && ts[0].Word? && s.word != "" ==> gaps[0] != []
    ensures Flush(Scan(s, Strip(Render(ts, gaps, TailText(last, open)), false))) == ScanTokens(Flush(s), ts)
    decreases |ts|
  {
    if ts == [] {
      ScanTail(s, last, open);
    } else {
      var more := Render(ts[1..], gaps[1..], TailText(last, open));
      var s2 := ScanToken(s, gaps[0], ts[0], more);
      LayoutTail(ts, gaps);
      ScanRendered(s2, ts[1..], gaps[1..], last, open);
    }
  }

  lemma LayoutTail(ts: seq<Token>, gaps: seq<seq<Blank>>)
    requires LegalLayout(ts, gaps) && ts != []
    ensures LegalLayout(ts[1..], gaps[1..])
    ensures |ts| > 1 && ts[0].Word? && ts[1].Word? ==> gaps[1] != []
  {
    forall i | 0 < i < |gaps[1..]| && ts[1..][i].Word? && ts[1..][i - 1].Word?
      ensures gaps[1..][i] != []
    {
      assert ts[1..][i - 1] == ts[i];
    }
  }

  // ----- From tokens to trees -----

  lemma {:induction false} ScanWords(s: Scanner, ws: seq<string>)
    ensures ScanTokens(s, WordTokens(ws)) == s.(words := s.words + ws)
    decreases |ws|
  {
    if ws == [] {
      assert s.words + ws == s.words;
    } else {
      var s1 := s.(words := s.words + [ws[0]]);
      calc {
        ScanTokens(s, WordTokens(ws));
        { assert WordTokens(ws)[1..] == WordTokens(ws[1..]); }
        ScanTokens(s1, WordTokens(ws[1..]));
        { ScanWords(s1, ws[1..]); }
        s1.(words := s1.words + ws[1..]);
        { assert s.words + [ws[0]] + ws[1..] == s.words + ws; }
        s.(words := s.words + ws);
      }
    }
  }

  lemma ScanStatement(s: Scanner, ws: seq<string>, t: Token)
    requires s.words == []
    ensures ScanTokens(s, WordTokens(ws) + [t]) == OnToken(s.(words := ws), t)
  {
    ScanTokensConcat(s, WordTokens(ws), [t]);
    ScanWords(s, ws);
    assert s.words + ws == ws;
    assert [t][1..] == [];
    assert ScanTokens(s.(words := ws), [t]) == ScanTokens(OnToken(s.(words := ws), t), [t][1..]);
  }

  /** The effect on an open site of everything between its braces. */
  function ApplyAll(site: Site, direct: bool, conf: Conf): Site
    decreases conf
  {
    match conf
    case End => site
    case Directive(ws, rest) => ApplyAll(Apply(site, direct, ws), direct, rest)
    case Block(_, body, rest) => ApplyAll(ApplyAll(site, false, body), direct, rest)
  }

  lemma {:induction false} ScanInside(s: Scanner, conf: Conf)
    requires s.words == [] && s.cur.Some? && |s.stack| > s.serverDepth >= 0
    ensures ScanTokens(s, Tokens(conf)) == s.(cur := Some(ApplyAll(s.cur.value, |s.stack| == s.serverDepth + 1, conf)))
    decreases conf
  {
    match conf
    case End =>
    case Directive(ws, rest) =>
      ScanTokensConcat(s, WordTokens(ws) + [Semi], Tokens(rest));
      ScanStatement(s, ws, Semi);
      ScanInside(OnSemi(s.(words := ws)), rest);
    case Block(ws, body, rest) =>
      var inner := OnOpen(s.(words := ws));
      ScanTokensConcat(s, WordTokens(ws) + [Open] + Tokens(body) + [Close], Tokens(rest));
      ScanBlock(s, ws, body);
      ScanInside(inner, body);
      var closed := OnClose(ScanTokens(inner, Tokens(body)));
      assert closed == s.(cur := Some(ApplyAll(s.cur.value, false, body)));
      ScanInside(closed, rest);
  }

  lemma ScanBlock(s: Scanner, ws: seq<string>, body: Conf)
    requires s.words == []
    ensures ScanTokens(s, WordTokens(ws) + [Open] + Tokens(body) + [Close]) ==
            OnClose(ScanTokens(OnOpen(s.(words := ws)), Tokens(body)))
  {
    var inner := OnOpen(s.(words := ws));
    var shut := ScanTokens(inner, Tokens(body));
    ScanTokensConcat(s, WordTokens(ws) + [Open] + Tokens(body), [Close]);
    ScanTokensConcat(s, WordTokens(ws) + [Open], Tokens(body));
    ScanStatement(s, ws, Open);
    assert [Close][1..] == [];
    assert ScanTokens(shut, [Close]) == ScanTokens(OnToken(shut, Close), [Close][1..]);
  }

  lemma ScanServerBlock(s: Scanner, ws: seq<string>, body: Conf)
    requires WellFormed(body) && ws != [] && ws[0] == "server"
    requires s.words == [] && s.cur.None? && s.serverDepth == -1
    ensures OnClose(ScanTokens(OnOpen(s.(words := ws)), Tokens(body))) ==
            s.(out := s.out + if DirectNames(body) == [] then [] else [SiteOf(body)])
  {
    ScanInside(OnOpen(s.(words := ws)), body);
    SiteOfIsApplyAll(body);
    assert s.out + [] == s.out;
  }

  lemma {:induction false} ScanOutside(s: Scanner, conf: Conf)
    requires WellFormed(conf)
    requires s.words == [] && s.cur.None? && s.serverDepth == -1
    ensures ScanTokens(s, Tokens(conf)) == s.(out := s.out + Sites(conf))
    decreases conf
  {
    match conf
    case End =>
      assert s.out + [] == s.out;
    case Directive(ws, rest) =>
      ScanTokensConcat(s, WordTokens(ws) + [Semi], Tokens(rest));
      ScanStatement(s, ws, Semi);
      ScanOutside(s, rest);
    case Block(ws, body, rest) =>
      var here := BlockSites(ws, body);
      var closed := s.(out := s.out + here);
      calc {
        ScanTokens(s, Tokens(conf));
        { ScanTokensConcat(s, WordTokens(ws) + [Open] + Tokens(body) + [Close], Tokens(rest)); }
        ScanTokens(ScanTokens(s, WordTokens(ws) + [Open] + Tokens(body) + [Close]), Tokens(rest));
        { ScanBlock(s, ws, body);
          if ws == [] || ws[0] != "server" {
            ScanOutside(OnOpen(s.(words := ws)), body);
          } else {
            ScanServerBlock(s, ws, body);
          } }
        ScanTokens(closed, Tokens(rest));
        { ScanOutside(closed, rest); }
        closed.(out := closed.out + Sites(rest));
        { assert s.out + here + Sites(rest) == s.out + (here + Sites(rest)); }
        s.(out := s.out + Sites(conf));
      }
  }

  // ----- The site of a block, directive by directive -----

  predicate AnyTls(ds: seq<seq<string>>) {
    exists i :: 0 <= i < |ds| && MeansTls(ds[i])
  }

  lemma AnyTlsConcat(a: seq<seq<string>>, b: seq<seq<string>>)
    ensures AnyTls(a + b) <==> AnyTls(a) || AnyTls(b)
  {
    if AnyTls(a) {
      var i :| 0 <= i < |a| && MeansTls(a[i]);
      assert MeansTls((a + b)[i]);
    }
    if AnyTls(b) {
      var i :| 0 <= i < |b| && MeansTls(b[i]);
      assert MeansTls((a + b)[|a| + i]);
    }
  }

  predicate AllAll(ds: seq<seq<string>>) {
    forall i :: 0 <= i < |ds| ==> AllWords(ds[i])
  }

  lemma {:induction false} FirstArgConcat(name: string, a: seq<seq<string>>, b: seq<seq<string>>)
    requires AllAll(a)
    ensures FirstArg(name, a + b) == if FirstArg(name, a) != "" then FirstArg(name, a) else FirstArg(name, b)
  {
    if a == [] {
      assert a + b == b;
    } else {
      assert (a + b)[1..] == a[1..] + b;
      assert AllWords(a[0]);
      assert Gives(a[0], name) ==> IsWord(a[0][1]);
      FirstArgConcat(name, a[1..], b);
    }
  }

  lemma {:induction false} LastArgConcat(name: string, a: seq<seq<string>>, b: seq<seq<string>>)
    requires AllAll(b)
    ensures LastArg(name, a + b) == if LastArg(name, b) != "" then LastArg(name, b) else LastArg(name, a)
  {
    if b == [] {
      assert a + b == a;
    } else {
      assert (a + b)[..|a + b| - 1] == a + b[..|b| - 1];
      assert AllWords(b[|b| - 1]);
      assert Gives(b[|b| - 1], name) ==> IsWord(b[|b| - 1][1]);
      LastArgConcat(name, a, b[..|b| - 1]);
    }
  }

  lemma {:induction false} DirectivesWellFormed(conf: Conf)
    requires WellFormed(conf)
    ensures AllAll(Directives(conf))
  {
    match conf
    case End =>
    case Directive(ws, rest) => DirectivesWellFormed(rest);
    case Block(_, body, rest) => DirectivesWellFormed(body); DirectivesWellFormed(rest);
  }

  /** A site after a sequence of directives, with `names` added. */
  function Updated(site: Site, names: seq<string>, ds: seq<seq<string>>): Site {
    Site(site.names + names,
         site.ssl || AnyTls(ds),
         if LastArg("ssl_certificate", ds) != "" then LastArg("ssl_certificate", ds) else site.certPath,
         if site.root != "" then site.root else FirstArg("root", ds),
         if site.proxyPass != "" then site.proxyPass else FirstArg("proxy_pass", ds))
  }

  lemma UpdatedTwice(site: Site, n1: seq<string>, n2: seq<string>, a: seq<seq<string>>, b: seq<seq<string>>)
    requires AllAll(a) && AllAll(b)
    ensures Updated(Updated(site, n1, a), n2, b) == Updated(site, n1 + n2, a + b)
  {
    AnyTlsConcat(a, b);
    FirstArgConcat("root", a, b);
    FirstArgConcat("proxy_pass", a, b);
    LastArgConcat("ssl_certificate", a, b);
    assert site.names + n1 + n2 == site.names + (n1 + n2);
  }

  lemma ApplyIsUpdated(site: Site, direct: bool, ws: seq<string>)
    requires AllWords(ws)
    ensures Apply(site, direct, ws) ==
            Updated(site, if direct && ws != [] && ws[0] == "server_name" then KeepNames(ws[1..]) else [], [ws])
  {
    assert AnyTls([ws]) <==> MeansTls(ws) by {
      assert [ws][0] == ws;
    }
    assert |ws| >= 2 ==> IsWord(ws[1]);
    assert [ws][1..] == [] && [ws][..0] == [];
    assert FirstArg("root", [ws]) == if Gives(ws, "root") then ws[1] else "";
    assert FirstArg("proxy_pass", [ws]) == if Gives(ws, "proxy_pass") then ws[1] else "";
    assert LastArg("ssl_certificate", [ws]) == if Gives(ws, "ssl_certificate") then ws[1] else "";
    assert site.names + [] == site.names;
  }

  lemma {:induction false} ApplyAllIsUpdated(site: Site, direct: bool, conf: Conf)
    requires WellFormed(conf)
    ensures ApplyAll(site, direct, conf) == Updated(site, if direct then DirectNames(conf) else [], Directives(conf))
    decreases conf
  {
    match conf
    case End =>
      assert site.names + [] == site.names;
    case Directive(ws, rest) =>
      var here := if direct && ws != [] && ws[0] == "server_name" then KeepNames(ws[1..]) else [];
      ApplyIsUpdated(site, direct, ws);
      ApplyAllIsUpdated(Apply(site, direct, ws), direct, rest);
      DirectivesWellFormed(rest);
      UpdatedTwice(site, here, if direct then DirectNames(rest) else [], [ws], Directives(rest));
    case Block(_, body, rest) =>
      ApplyAllIsUpdated(site, false, body);
      ApplyAllIsUpdated(ApplyAll(site, false, body), direct, rest);
      DirectivesWellFormed(body);
      DirectivesWellFormed(rest);
      var names := if direct then DirectNames(rest) else [];
      UpdatedTwice(site, [], names, Directives(body), Directives(rest));
      assert [] + names == names;
  }

  lemma SiteOfIsApplyAll(body: Conf)
    requires WellFormed(body)
    ensures ApplyAll(EMPTY_SITE, true, body) == SiteOf(body)
  {
    ApplyAllIsUpdated(EMPTY_SITE, true, body);
    assert [] + DirectNames(body) == DirectNames(body);
  }

  lemma {:induction false} TokensAreWords(conf: Conf)
    requires WellFormed(conf)
    ensures forall i :: 0 <= i < |Tokens(conf)| && Tokens(conf)[i].Word? ==> IsWord(Tokens(conf)[i].text)
  {
    match conf
    case End =>
    case Directive(ws, rest) => TokensAreWords(rest);
    case Block(ws, body, rest) => TokensAreWords(body); TokensAreWords(rest);
  }

  /** The main result: however a tree is laid out as text, the scanner reads its sites. */
  lemma ParseLaidOut(conf: Conf, gaps: seq<seq<Blank>>, last: seq<Blank>, open: Option<string>)
    requires WellFormed(conf) && LegalLayout(Tokens(conf), gaps)
    requires LegalGap(last) && (open.Some? ==> '\n' !in open.value)
    ensures Parse(LayOut(conf, gaps, last, open)) == Sites(conf)
  {
    TokensAreWords(conf);
    ScanRendered(START, Tokens(conf), gaps, last, open);
    ScanOutside(START, conf);
    assert [] + Sites(conf) == Sites(conf);
  }

  // ----- Which words there are -----

  predicate OneLine(s: string) {
    forall i :: 0 <= i < |s| ==> s[i] != '\n' && s[i] != '#'
  }

  /** What the scanner has collected are words. */
  predicate Collected(s: Scanner) {
    AllWords(s.words) && forall i :: 0 <= i < |s.word| ==> WordChar(s.word[i])
  }

  lemma {:induction false} ScanCollects(s: Scanner, src: string)
    requires Collected(s) && OneLine(src)
    ensures Collected(Scan(s, src))
    decreases |src|
  {
    if src == "" {
    } else {
      ScanCollects(OnChar(s, src[0]), src[1..]);
    }
  }

  lemma {:induction false} StripClean(text: string, comment: bool)
    ensures OneLine(Strip(text, comment))
  {
    if text == "" {
    } else {
      StripClean(text[1..], false);
      StripClean(text[1..], true);
    }
  }

  lemma {:induction false} StripWord(w: string, rest: string)
    requires forall i :: 0 <= i < |w| ==> WordChar(w[i])
    ensures Strip(w + rest, false) == w + Strip(rest, false)
  {
    if w == "" {
      assert w + rest == rest;
    } else {
      assert (w + rest)[1..] == w[1..] + rest;
      StripWord(w[1..], rest);
      assert [w[0]] + (w[1..] + Strip(rest, false)) == w + Strip(rest, false);
    }
  }

  lemma {:induction false} ScanLetters(s: Scanner, w: string)
    requires forall i :: 0 <= i < |w| ==> WordChar(w[i])
    ensures Scan(s, w) == s.(word := s.word + w)
    decreases |w|
  {
    if w == "" {
      assert s.word + w == s.word;
    } else {
      ScanLetters(OnChar(s, w[0]), w[1..]);
      assert s.word + [w[0]] + w[1..] == s.word + w;
    }
  }

  /** What the scanner makes of a text followed by a blank, as words. */
  function WordsOf(text: string): seq<string> {
    Scan(START, Strip(text + " ", false)).words
  }

  /** A text is read as the one word it is if and only if it is free of blanks, `;`, braces and '#'.  A quoted
      argument that contains one of them, which nginx allows, is therefore read as something else. */
  lemma {:induction false} ReadAsOneWordIff(w: string)
    ensures WordsOf(w) == [w] <==> IsWord(w)
    ensures IsWord(w) <==> w != "" && forall i :: 0 <= i < |w| ==> w[i] !in {' ', '\t', '\r', '\n', ';', '{', '}', '#'}
  {
    StripClean(w + " ", false);
    ScanCollects(START, Strip(w + " ", false));
    if WordsOf(w) == [w] {
      assert IsWord(WordsOf(w)[0]);
    }
    if IsWord(w) {
      StripWord(w, " ");
      assert Strip(" ", false) == " " by {
        assert " "[1..] == "";
      }
      ScanConcat(START, w, " ");
      ScanLetters(START, w);
      assert "" + w == w;
      assert Scan(START, w + " ") == Flush(START.(word := w)) by {
        assert " "[1..] == "";
      }
    }
  }
}
