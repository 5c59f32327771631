/** `effective_env` of scripts/backup_config.sh: the `Environment=` lines of a
    unit file and its drop-ins, a later assignment overriding an earlier one. */
module DropIn {
  import opened Lists
  import opened Pieces
  import opened Text

  /** A key and the whole `key=value` line that assigns it. */
  type Assign = (string, string)

  /** What one line assigns, if anything. */
  function ParseLine(raw: string): Option<Assign> {
    var line := TrimLeft(raw, Space);
    if !("Environment=" <= line) then None
    else
      var rest := line[12..];
      match Find(rest, '=')
      case None => None
      case Some(k) => if k == 0 then None else Some((rest[..k], rest))
  }

  /** The lines `read` returns: a last line without its newline is not one. */
  function ReadLines(text: string): seq<string>
    decreases |text|
  {
    match Find(text, '\n')
    case None => []
    case Some(k) => [text[..k]] + ReadLines(text[k + 1..])
  }

  function Assigns(lines: seq<string>): seq<Assign> {
    if lines == [] then []
    else
      match ParseLine(lines[|lines| - 1])
      case None => Assigns(lines[..|lines| - 1])
      case Some(a) => Assigns(lines[..|lines| - 1]) + [a]
  }

  /** Unit file and drop-ins in the order they are read; None is unreadable. */
  function AllAssigns(files: seq<Option<string>>): seq<Assign> {
    if files == [] then []
    else
      var init, last := files[..|files| - 1], files[|files| - 1];
      AllAssigns(init) + if last.Some? then Assigns(ReadLines(last.value)) else []
  }

  /* ---- the simple specification ---- */

  function Keys(xs: seq<Assign>): (ks: seq<string>)
    ensures |ks| == |xs| && forall i :: 0 <= i < |xs| ==> ks[i] == xs[i].0
  {
    seq(|xs|, i requires 0 <= i < |xs| => xs[i].0)
  }

  /** The last line that assigns a key. */
  function Last(xs: seq<Assign>, key: string): string
    requires key in Keys(xs)
  {
    var n := |xs| - 1;
    if xs[n].0 == key then xs[n].1
    else
      assert key in Keys(xs[..n]) by {
        var i :| 0 <= i < |xs| && Keys(xs)[i] == key;
        assert Keys(xs[..n])[i] == key;
      }
      Last(xs[..n], key)
  }

  /** Each key once, in the order of first assignment, with its last line. */
  function Effective(xs: seq<Assign>): (out: seq<string>)
    ensures |out| == |Dedup(Keys(xs))|
    ensures forall i :: 0 <= i < |out| ==> Dedup(Keys(xs))[i] in Keys(xs) && out[i] == Last(xs, Dedup(Keys(xs))[i])
  {
    var ks := Dedup(Keys(xs));
    seq(|ks|, i requires 0 <= i < |ks| && ks[i] in Keys(xs) => Last(xs, ks[i]))
  }

  /* ---- the loop ---- */

  ghost predicate Tracks(value: map<string, string>, order: seq<string>, xs: seq<Assign>) {
    && order == Dedup(Keys(xs)) && (forall k :: k in value <==> k in Keys(xs))
    && forall k :: k in value ==> value[k] == Last(xs, k)
  }

  lemma KeysNext(xs: seq<Assign>, x: Assign)
    ensures Keys(xs + [x]) == Keys(xs) + [x.0]
    ensures forall k :: k in Keys(xs) && k != x.0 ==> k in Keys(xs + [x]) && Last(xs + [x], k) == Last(xs, k)
    ensures x.0 in Keys(xs + [x]) && Last(xs + [x], x.0) == x.1
  {
    assert (xs + [x])[..|xs|] == xs;
  }

  lemma OrderNext(order: seq<string>, xs: seq<Assign>, x: Assign)
    requires order == Dedup(Keys(xs))
    ensures Dedup(Keys(xs + [x])) == if x.0 in Keys(xs) then order else order + [x.0]
  {
    KeysNext(xs, x);
    DedupNext(Keys(xs), x.0);
  }

  lemma ValueNext(value: map<string, string>, xs: seq<Assign>, x: Assign)
    requires forall k :: k in value <==> k in Keys(xs)
    requires forall k :: k in value ==> value[k] == Last(xs, k)
    ensures forall k :: k in value[x.0 := x.1] <==> k in Keys(xs + [x])
    ensures forall k :: k in value[x.0 := x.1] ==> value[x.0 := x.1][k] == Last(xs + [x], k)
  {
    KeysNext(xs, x);
  }

  /** One assignment. */
  lemma TracksNext(value: map<string, string>, order: seq<string>, xs: seq<Assign>, x: Assign)
    requires Tracks(value, order, xs)
    ensures Tracks(value[x.0 := x.1], if x.0 in value then order else order + [x.0], xs + [x])
  {
    OrderNext(order, xs, x);
    ValueNext(value, xs, x);
  }

  lemma AllNext(files: seq<Option<string>>, f: nat)
    requires f < |files|
    ensures AllAssigns(files[..f + 1]) ==
            if files[f].None? then AllAssigns(files[..f])
            else AllAssigns(files[..f]) + Assigns(ReadLines(files[f].value))
  {
    assert files[..f + 1][..f] == files[..f];
  }

  method EffectiveEnv(files: seq<Option<string>>) returns (out: seq<string>)
    ensures out == Effective(AllAssigns(files))
  {
    var value: map<string, string>, order: seq<string> := map[], [];
    for f := 0 to |files|
      invariant Tracks(value, order, AllAssigns(files[..f]))
    {
      AllNext(files, f);
      if files[f].Some? {
        value, order := ReadFile(value, order, files[f].value, AllAssigns(files[..f]));
      }
    }
    assert files[..|files|] == files;
    out := PrintEnv(value, order, AllAssigns(files));
  }

  method PrintEnv(value: map<string, string>, order: seq<string>, ghost xs: seq<Assign>) returns (out: seq<string>)
    requires Tracks(value, order, xs)
    ensures out == Effective(xs)
  {
    out := [];
    for k := 0 to |order|
      invariant out == Effective(xs)[..k]
    {
      assert order[k] in Keys(xs);
      out := out + [value[order[k]]];
    }
  }

  /** One line of a file that is read after the assignments xs. */
  lemma LineNext(value: map<string, string>, order: seq<string>, xs: seq<Assign>, lines: seq<string>, k: nat)
    requires k < |lines| && Tracks(value, order, xs + Assigns(lines[..k]))
    ensures match ParseLine(lines[k])
            case None => Tracks(value, order, xs + Assigns(lines[..k + 1]))
            case Some(a) =>
              Tracks(value[a.0 := a.1], if a.0 in value then order else order + [a.0], xs + Assigns(lines[..k + 1]))
  {
    assert lines[..k + 1][..k] == lines[..k];
    var ys := xs + Assigns(lines[..k]);
    if ParseLine(lines[k]).Some? {
      TracksNext(value, order, ys, ParseLine(lines[k]).value);
      assert ys + [ParseLine(lines[k]).value] == xs + Assigns(lines[..k + 1]);
    }
  }

  /** The inner loop. */
  method ReadFile(value0: map<string, string>, order0: seq<string>, text: string, ghost xs: seq<Assign>)
    returns (value: map<string, string>, order: seq<string>)
    requires Tracks(value0, order0, xs)
    ensures Tracks(value, order, xs + Assigns(ReadLines(text)))
  {
    value, order := value0, order0;
    var lines := ReadLines(text);
    assert xs + [] == xs;
    for k := 0 to |lines|
      invariant Tracks(value, order, xs + Assigns(lines[..k]))
    {
      LineNext(value, order, xs, lines, k);
      var a := ParseLine(lines[k]);
      if a.Some? {
        if a.value.0 !in value { order := order + [a.value.0]; }
        value := value[a.value.0 := a.value.1];
      }
    }
    assert lines[..|lines|] == lines;
  }

  /* ---- what the text of a unit file assigns ---- */

  /** `Environment=key=value`, whatever blanks come first. */
  predicate Assigning(line: string, pre: string, key: string, value: string) {
    && All(pre, Space) && key != "" && '=' !in key
    && line == pre + ("Environment=" + (key + (['='] + value)))
  }

  lemma {:induction false} Unindent(s: string) returns (pre: string)
    ensures s == pre + TrimLeft(s, Space) && All(pre, Space)
  {
    if s != "" && Space(s[0]) {
      pre := Unindent(s[1..]);
      pre := [s[0]] + pre;
      assert s == [s[0]] + s[1..];
    } else {
      pre := "";
    }
  }

  lemma KeyReads(key: string, value: string)
    requires '=' !in key
    ensures var rest := key + (['='] + value); Find(rest, '=') == Some(|key|) && rest[..|key|] == key
  {
    FindSplit(key, '=', value);
    assert key + (['='] + value) == key + ['='] + value;
  }

  lemma KeyTooEarly(rest: string)
    ensures (Find(rest, '=').Some? && Find(rest, '=').value > 0) <==>
            exists key, value :: key != "" && '=' !in key && rest == key + (['='] + value)
  {
    if Find(rest, '=').Some? && Find(rest, '=').value > 0 {
      var k := Find(rest, '=').value;
      assert rest == rest[..k] + (['='] + rest[k + 1..]);
    }
    if key, value :| key != "" && '=' !in key && rest == key + (['='] + value) {
      KeyReads(key, value);
    }
  }

  /** A line assigns exactly if it is of that form, and then that key by the text behind
      `Environment=`. */
  lemma LineAssigns(line: string)
    ensures forall pre, key, value :: Assigning(line, pre, key, value) ==>
              ParseLine(line) == Some((key, key + (['='] + value)))
    ensures ParseLine(line).Some? ==> exists pre, key, value :: Assigning(line, pre, key, value)
  {
    forall pre, key, value | Assigning(line, pre, key, value)
      ensures ParseLine(line) == Some((key, key + (['='] + value)))
    {
      var rest := key + (['='] + value);
      TrimLeftDrops(pre, "Environment=" + rest, Space);
      assert ("Environment=" + rest)[12..] == rest;
      KeyReads(key, value);
    }
    if ParseLine(line).Some? {
      var pre := Unindent(line);
      var rest := TrimLeft(line, Space)[12..];
      assert TrimLeft(line, Space) == "Environment=" + rest;
      KeyTooEarly(rest);
      var key, value :| key != "" && '=' !in key && rest == key + (['='] + value);
      assert Assigning(line, pre, key, value);
    }
  }

  function Unlines(lines: seq<string>): string {
    if lines == [] then "" else lines[0] + (['\n'] + Unlines(lines[1..]))
  }

  /** The lines are those that end in a newline; what follows the last is not read. */
  lemma {:induction false} LinesReadBack(lines: seq<string>, rest: string)
    requires '\n' !in rest && forall l :: l in lines ==> '\n' !in l
    ensures ReadLines(Unlines(lines) + rest) == lines
  {
    if lines == [] {
      assert Unlines(lines) + rest == rest;
    } else {
      var text, more := Unlines(lines) + rest, Unlines(lines[1..]) + rest;
      assert text == lines[0] + ['\n'] + more;
      FindSplit(lines[0], '\n', more);
      assert text[..|lines[0]|] == lines[0] && text[|lines[0]| + 1..] == more;
      LinesReadBack(lines[1..], rest);
    }
  }

  lemma {:induction false} AssignsJoin(a: seq<string>, b: seq<string>)
    ensures Assigns(a + b) == Assigns(a) + Assigns(b)
    decreases |b|
  {
    if b == [] {
      assert a + b == a && Assigns(a) + [] == Assigns(a);
    } else {
      var n := |b| - 1;
      AssignsJoin(a, b[..n]);
      assert (a + b)[..|a + b| - 1] == a + b[..n];
      if ParseLine(b[n]).Some? {
        Associate(Assigns(a), Assigns(b[..n]), [ParseLine(b[n]).value]);
      }
    }
  }

  lemma Associate<T>(a: seq<T>, b: seq<T>, c: seq<T>)
    ensures a + b + c == a + (b + c)
  {
  }

  /** One more line of a readable file assigns one thing more, or nothing. */
  lemma OneMoreLine(lines: seq<string>, line: string, rest: string)
    requires '\n' !in rest && '\n' !in line && forall l :: l in lines ==> '\n' !in l
    ensures Assigns(ReadLines(Unlines(lines + [line]) + rest)) ==
            Assigns(ReadLines(Unlines(lines) + rest)) + match ParseLine(line) case None => [] case Some(a) => [a]
  {
    LinesReadBack(lines, rest);
    LinesReadBack(lines + [line], rest);
    assert (lines + [line])[..|lines|] == lines;
  }

  /** The line that counts for a key is its last. */
  lemma {:induction false} LastIsLast(xs: seq<Assign>, key: string, i: nat)
    requires i < |xs| && xs[i].0 == key && forall j :: i < j < |xs| ==> xs[j].0 != key
    ensures key in Keys(xs) && Last(xs, key) == xs[i].1
  {
    assert Keys(xs)[i] == key;
    var n := |xs| - 1;
    if i < n {
      LastIsLast(xs[..n], key, i);
    }
  }

  /* ---- what a drop-in changes ---- */

  lemma {:induction false} LastOfBoth(a: seq<Assign>, b: seq<Assign>, k: string)
    requires k in Keys(a + b)
    ensures k in Keys(b) ==> Last(a + b, k) == Last(b, k)
    ensures k !in Keys(b) ==> k in Keys(a) && Last(a + b, k) == Last(a, k)
    decreases |b|
  {
    KeysJoin(a, b);
    if b == [] {
      assert a + b == a;
    } else {
      var n := |b| - 1;
      assert (a + b)[..|a + b| - 1] == a + b[..n];
      KeysJoin(b[..n], [b[n]]);
      assert b == b[..n] + [b[n]];
      if b[n].0 != k {
        KeysJoin(a, b[..n]);
        LastOfBoth(a, b[..n], k);
      }
    }
  }

  lemma KeysJoin(a: seq<Assign>, b: seq<Assign>)
    ensures Keys(a + b) == Keys(a) + Keys(b)
  {
  }

  /** Appending a drop-in keeps every key where it was and changes the lines of
      exactly the keys it assigns; what it adds comes after. */
  lemma DropInChangesItsKeys(a: seq<Assign>, b: seq<Assign>, i: nat)
    requires i < |Effective(a + b)|
    ensures var old', new' := Dedup(Keys(a)), Dedup(Keys(a + b));
      && old' <= new'
      && (new'[i] in Keys(b) ==> Effective(a + b)[i] == Last(b, new'[i]))
      && (new'[i] !in Keys(b) ==> i < |Effective(a)| && Effective(a + b)[i] == Effective(a)[i])
  {
    var ks := Dedup(Keys(a + b));
    KeysJoin(a, b);
    DedupGrows(Keys(a), Keys(b));
    LastOfBoth(a, b, ks[i]);
    if ks[i] !in Keys(b) {
      var j :| 0 <= j < |Dedup(Keys(a))| && Dedup(Keys(a))[j] == ks[i];
      assert ks[j] == ks[i];
    }
  }

  /** A file that assigns nothing changes nothing, readable or not. */
  lemma SilentFile(files: seq<Option<string>>, text: string)
    requires Assigns(ReadLines(text)) == []
    ensures Effective(AllAssigns(files + [Some(text)])) == Effective(AllAssigns(files)) ==
            Effective(AllAssigns(files + [None]))
  {
    var some, none := files + [Some(text)], files + [None];
    AllNext(some, |files|);
    AllNext(none, |files|);
    assert some[..|files|] == files == none[..|files|] && some[..|some|] == some && none[..|none|] == none;
    assert AllAssigns(files) + [] == AllAssigns(files);
  }
}
