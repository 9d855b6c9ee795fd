/** How the command line renders a stored log item: a format chosen by
    verbosity, optional fields filled from the item, and at medium verbosity
    and above the item's traceback appended line by line. Format strings are
    given already split into literal text and replacement fields; the
    timestamp formatter is a parameter. The verbosity constants live in a
    logger module that is not part of this model; they are taken as 0, 1, 2. */
module ExecutionLogging {
  import opened Base

  const NoVerbose: nat := 0
  const LowVerbose: nat := 1
  const MediumVerbose: nat := 2

  /** `os.linesep` on the POSIX systems the command line runs on. */
  const LineSep: string := "\n"

  /** A piece of a format string: literal text, a positional field `{0}`, or
      a named field such as `{item.msg}` or `{created_at}`. */
  datatype Segment = Lit(text: string) | Positional | Field(name: string)
  type Template = seq<Segment>

  /** The parts of a log item the renderer reads. `actor` is the item's task's
      actor, absent when the item has no task. `shown` is the item's own text
      (what `{item}` prints) and `attributes` the text of every other
      attribute a format may name as `{item.<name>}`. */
  datatype LogItem = LogItem(
    msg: string, level: string, createdAt: nat, traceback: string,
    actor: Option<string>, execution: string,
    shown: string, attributes: map<string, string>)

  /** One verbosity level's entry of the formatting dict: the keys the
      renderer looks at. `createdAt` is a timestamp pattern. */
  datatype FormatSpec = FormatSpec(
    mainMsg: Option<Template>, createdAt: Option<string>, level: Option<Template>,
    msg: Option<Template>, actor: Option<Template>, execution: Option<Template>)

  const ItemMsg: Template := [Field("item.msg")]

  /** `DEFAULT_FORMATTING`. */
  const DefaultFormatting: map<nat, FormatSpec> := map[
    NoVerbose := FormatSpec(Some(ItemMsg), None, None, None, None, None),
    LowVerbose := FormatSpec(
      Some([Field("created_at"), Lit(" | "), Field("item.level[0]"), Lit(" | "), Field("item.msg")]),
      Some("%H:%M:%S"), None, None, None, None)]

  function Min(a: nat, b: nat): nat {
    if a <= b then a else b
  }

  /** `template.format(arg)`: only positional fields can be filled. */
  function FormatOne(t: Template, arg: string): (r: Result<string>)
    ensures r.Ok? <==> forall i :: 0 <= i < |t| ==> !t[i].Field?
    decreases |t|
  {
    if |t| == 0 then Ok("")
    else
      var head :- match t[0]
                  case Lit(s) => Ok(s)
                  case Positional => Ok(arg)
                  case Field(n) => Err("KeyError: '" + n + "'");
      var rest := FormatOne(t[1..], arg);
      assert rest.Ok? <==> forall i :: 1 <= i < |t| ==> !t[i].Field? by {
        assert forall i :: 1 <= i < |t| ==> t[i] == t[1..][i - 1];
      }
      var tail :- rest;
      Ok(head + tail)
  }

  /** The text of `item.<name>`: the four attributes the renderer also uses,
      then the item's other attributes; `None` is an `AttributeError`. */
  function ItemAttr(item: LogItem, name: string): (r: Option<string>)
    ensures name !in {"msg", "level", "traceback", "execution"} ==>
              (r.Some? <==> name in item.attributes) && (r.Some? ==> r.value == item.attributes[name])
  {
    match name
    case "msg" => Some(item.msg)
    case "level" => Some(item.level)
    case "traceback" => Some(item.traceback)
    case "execution" => Some(item.execution)
    case _ => if name in item.attributes then Some(item.attributes[name]) else None
  }

  /** A field name cut into the argument it names and, when it ends in
      `[digits]`, the index taken of that argument's text. A bracket holding
      anything but digits indexes a string with a string key. */
  function SplitIndex(name: string): (r: Result<(string, Option<nat>)>)
    ensures r.Ok? && r.value.1.Some? ==>
              && '[' !in r.value.0
              && exists d :: IsDigits(d) && |d| > 0 && ParseDecimal(d) == r.value.1.value
                             && name == r.value.0 + "[" + d + "]"
    ensures (|name| == 0 || name[|name| - 1] != ']') ==> r == Ok((name, None))
  {
    if |name| > 0 && name[|name| - 1] == ']' then
      match SplitAt(name[..|name| - 1], '[')
      case None => Ok((name, None))
      case Some((base, digits)) =>
        if |digits| > 0 && IsDigits(digits) then
          assert name == base + "[" + digits + "]" by {
            assert name == name[..|name| - 1] + "]";
          }
          Ok((base, Some(ParseDecimal(digits))))
        else Err("TypeError: string indices must be integers")
    else Ok((name, None))
  }

  /** The argument a field names: `item` itself, one of its attributes, or a
      keyword argument the renderer prepared. */
  function ArgValue(item: LogItem, kwargs: map<string, string>, base: string): (r: Result<string>)
    ensures base == "item" ==> r == Ok(item.shown)
    ensures |base| > 5 && base[..5] == "item." ==>
              (r.Ok? <==> ItemAttr(item, base[5..]).Some?)
              && (r.Ok? ==> r.value == ItemAttr(item, base[5..]).value)
    ensures base != "item" && !(|base| > 5 && base[..5] == "item.") ==>
              (r.Ok? <==> base in kwargs) && (r.Ok? ==> r.value == kwargs[base])
  {
    if base == "item" then Ok(item.shown)
    else if |base| > 5 && base[..5] == "item." then
      match ItemAttr(item, base[5..])
      case Some(v) => Ok(v)
      case None => Err("AttributeError: '" + base[5..] + "'")
    else if base in kwargs then Ok(kwargs[base])
    else Err("KeyError: '" + base + "'")
  }

  /** A named field of the main format: the argument it names, then the
      one-character string at its index when it has one. The argument list
      is `item` plus the keyword arguments the renderer prepared. */
  function FieldValue(item: LogItem, kwargs: map<string, string>, name: string): (r: Result<string>)
    ensures name == "item.msg" ==> r == Ok(item.msg)
    ensures (|name| == 0 || name[|name| - 1] != ']') ==> r == ArgValue(item, kwargs, name)
    ensures r.Ok? ==> SplitIndex(name).Ok? && ArgValue(item, kwargs, SplitIndex(name).value.0).Ok?
  {
    var (base, index) :- SplitIndex(name);
    var v :- ArgValue(item, kwargs, base);
    match index
    case None => Ok(v)
    case Some(k) => if k < |v| then Ok([v[k]]) else Err("IndexError: string index out of range")
  }

  /** `{item.<name>}` prints the item's attribute, and fails exactly when the
      item has no such attribute. */
  lemma ItemField(item: LogItem, kwargs: map<string, string>, name: string)
    requires |name| > 0 && name[|name| - 1] != ']'
    ensures var r := FieldValue(item, kwargs, "item." + name);
            && (r.Ok? <==> ItemAttr(item, name).Some?)
            && (r.Ok? ==> r.value == ItemAttr(item, name).value)
  {
    var f := "item." + name;
    assert f[..5] == "item." && f[5..] == name;
    assert f[|f| - 1] == name[|name| - 1];
  }

  /** `{item.<name>[k]}` prints the `k`-th character of the attribute's text,
      and fails when the attribute is missing or shorter than `k + 1`. */
  lemma {:induction false} IndexedItemField(item: LogItem, kwargs: map<string, string>, name: string, k: nat)
    requires |name| > 0 && '[' !in name
    ensures var r := FieldValue(item, kwargs, "item." + name + "[" + Decimal(k) + "]");
            var v := ItemAttr(item, name);
            && (r.Ok? <==> v.Some? && k < |v.value|)
            && (r.Ok? ==> r.value == [v.value[k]])
  {
    var base := "item." + name;
    var digits := Decimal(k);
    var f := base + "[" + digits + "]";
    assert f[..|f| - 1] == base + ['['] + digits;
    assert '[' !in base by {
      forall i | 0 <= i < |base|
        ensures base[i] != '['
      {
        if i >= 5 {
          assert base[i] == name[i - 5];
        }
      }
    }
    SplitAtAfter(base, '[', digits);
    DecimalRoundTrip(k);
    assert SplitIndex(f) == Ok((base, Some(k)));
    assert base[..5] == "item." && base[5..] == name;
  }

  /** `main_msg.format(**kwargs)`: positional fields have no argument. */
  function FormatMain(t: Template, item: LogItem, kwargs: map<string, string>): Result<string>
    decreases |t|
  {
    if |t| == 0 then Ok("")
    else
      var head :- match t[0]
                  case Lit(s) => Ok(s)
                  case Positional => Err("IndexError: Replacement index 0 out of range")
                  case Field(n) => FieldValue(item, kwargs, n);
      var tail :- FormatMain(t[1..], item, kwargs);
      Ok(head + tail)
  }

  /** Adds `key` with `template.format(arg)` when the format has the key. */
  function AddOptional(kwargs: map<string, string>, key: string, template: Option<Template>, arg: string)
    : (r: Result<map<string, string>>)
    ensures template.None? ==> r == Ok(kwargs)
    ensures template.Some? ==> (r.Ok? <==> FormatOne(template.value, arg).Ok?)
    ensures template.Some? && r.Ok? ==>
              FormatOne(template.value, arg).Ok? && r.value == kwargs[key := FormatOne(template.value, arg).value]
  {
    if template.None? then Ok(kwargs)
    else
      var v :- FormatOne(template.value, arg);
      Ok(kwargs[key := v])
  }

  /** The keyword arguments for the main format: each optional field only when
      its key is in the format, and `actor` only for an item with a task. */
  function Kwargs(spec: FormatSpec, item: LogItem, strftime: (nat, string) -> string): (r: Result<map<string, string>>)
    ensures r.Ok? ==> ("created_at" in r.value <==> spec.createdAt.Some?)
    ensures r.Ok? ==> ("level" in r.value <==> spec.level.Some?)
    ensures r.Ok? ==> ("msg" in r.value <==> spec.msg.Some?)
    ensures r.Ok? ==> ("actor" in r.value <==> spec.actor.Some? && item.actor.Some?)
    ensures r.Ok? ==> ("execution" in r.value <==> spec.execution.Some?)
    ensures r.Ok? && spec.createdAt.Some? ==> r.value["created_at"] == strftime(item.createdAt, spec.createdAt.value)
  {
    var k0: map<string, string> := map[];
    var k1 := if spec.createdAt.Some? then k0["created_at" := strftime(item.createdAt, spec.createdAt.value)] else k0;
    var k2 :- AddOptional(k1, "level", spec.level, item.level);
    var k3 :- AddOptional(k2, "msg", spec.msg, item.msg);
    var k4 :- if item.actor.Some? then AddOptional(k3, "actor", spec.actor, item.actor.value) else Ok(k3);
    AddOptional(k4, "execution", spec.execution, item.execution)
  }

  /** A line of `splitlines(True)`: non-empty, a line end only at its end,
      and only the last line may lack one. */
  predicate IsLine(l: string, last: bool) {
    |l| > 0 && '\n' !in l[..|l| - 1] && (last || l[|l| - 1] == '\n')
  }

  predicate AreLines(ls: seq<string>) {
    forall i :: 0 <= i < |ls| ==> IsLine(ls[i], i == |ls| - 1)
  }

  /** `str.splitlines(True)` with `\n` as the line boundary. */
  function SplitLines(s: string): (ls: seq<string>)
    ensures Flatten(ls) == s
    ensures AreLines(ls)
    decreases |s|
  {
    if |s| == 0 then []
    else
      match FindFirst(s, '\n')
      case None =>
        assert s[..|s| - 1] <= s;
        [s]
      case Some(k) =>
        var line := s[..k + 1];
        var rest := SplitLines(s[k + 1..]);
        assert line[..|line| - 1] == s[..k];
        assert line + s[k + 1..] == s;
        var ls := [line] + rest;
        assert ls[1..] == rest;
        assert forall i :: 1 <= i < |ls| ==> ls[i] == rest[i - 1];
        ls
  }

  /** A line ending in a line break is split off as a whole. */
  lemma SplitFirstLine(l: string, t: string)
    requires |l| > 0 && '\n' !in l[..|l| - 1] && l[|l| - 1] == '\n'
    ensures SplitLines(l + t) == [l] + SplitLines(t)
  {
    assert l == l[..|l| - 1] + ['\n'];
    FindFirstAfter(l[..|l| - 1], '\n', t);
    assert l + t == l[..|l| - 1] + ['\n'] + t;
    assert (l + t)[..|l|] == l;
    assert (l + t)[|l|..] == t;
  }

  /** Text without a line break is one line. */
  lemma SplitLastLine(l: string)
    requires |l| > 0 && '\n' !in l
    ensures SplitLines(l) == [l]
  {
  }

  /** Splitting text made of whole lines gives those lines back. */
  lemma {:induction false} SplitLinesOfLines(ls: seq<string>)
    requires AreLines(ls)
    ensures SplitLines(Flatten(ls)) == ls
    decreases |ls|
  {
    if |ls| > 0 {
      var l := ls[0];
      var rest := ls[1..];
      assert AreLines(rest) by {
        assert forall i :: 0 <= i < |rest| ==> rest[i] == ls[i + 1];
      }
      SplitLinesOfLines(rest);
      assert Flatten(ls) == l + Flatten(rest);
      assert IsLine(l, |ls| == 1);
      if l[|l| - 1] == '\n' {
        SplitFirstLine(l, Flatten(rest));
      } else {
        assert rest == [];
        assert l == l[..|l| - 1] + [l[|l| - 1]];
        SplitLastLine(l);
        assert l + Flatten(rest) == l;
      }
    }
  }

  /** `'\t' + '|' + line` for each line, joined. */
  function IndentLines(ls: seq<string>): (r: seq<string>)
    ensures |r| == |ls|
    ensures forall i :: 0 <= i < |ls| ==> r[i] == "\t|" + ls[i]
  {
    if |ls| == 0 then [] else ["\t|" + ls[0]] + IndentLines(ls[1..])
  }

  /** The text appended for a traceback. */
  function TracebackBlock(traceback: string): string {
    LineSep + "------>" + Flatten(IndentLines(SplitLines(traceback)))
  }

  /** Drops the two-character prefix of each line. */
  function Unindent(ls: seq<string>): (r: seq<string>)
    ensures |r| == |ls|
    ensures forall i :: 0 <= i < |ls| ==> r[i] == (if |ls[i]| >= 2 then ls[i][2..] else ls[i])
  {
    if |ls| == 0 then [] else [if |ls[0]| >= 2 then ls[0][2..] else ls[0]] + Unindent(ls[1..])
  }

  /** The traceback can be read back from the block: split the part after the
      marker into lines and strip each line's `\t|`. */
  lemma TracebackBlockRoundTrip(traceback: string)
    ensures var block := TracebackBlock(traceback);
            var head := LineSep + "------>";
            && block[..|head|] == head
            && Flatten(Unindent(SplitLines(block[|head|..]))) == traceback
  {
    var ls := SplitLines(traceback);
    var indented := IndentLines(ls);
    assert AreLines(indented) by {
      forall i | 0 <= i < |indented|
        ensures IsLine(indented[i], i == |indented| - 1)
      {
        var l := ls[i];
        assert indented[i] == "\t|" + l;
        assert indented[i][..|indented[i]| - 1] == "\t|" + l[..|l| - 1];
      }
    }
    SplitLinesOfLines(indented);
    var head := LineSep + "------>";
    assert (head + Flatten(indented))[|head|..] == Flatten(indented);
    var back := Unindent(indented);
    assert back == ls by {
      forall i | 0 <= i < |ls|
        ensures back[i] == ls[i]
      {
        assert indented[i] == "\t|" + ls[i];
        assert ("\t|" + ls[i])[2..] == ls[i];
      }
    }
  }

  /** `__repr__`. A missing formatting dict (or an empty one) means the
      defaults; a traceback is appended only when the item has one and the
      verbosity is medium or higher. */
  function Render(item: LogItem, formats: Option<map<nat, FormatSpec>>, verbosity: nat,
                  strftime: (nat, string) -> string): (r: Result<string>)
    ensures var fs := if formats.Some? && |formats.value| > 0 then formats.value else DefaultFormatting;
            Min(verbosity, LowVerbose) !in fs ==> r.Err?
    ensures var fs := if formats.Some? && |formats.value| > 0 then formats.value else DefaultFormatting;
            var key := Min(verbosity, LowVerbose);
            key in fs ==>
              var kwargs := Kwargs(fs[key], item, strftime);
              var main := fs[key].mainMsg.GetOr(ItemMsg);
              && (r.Ok? <==> kwargs.Ok? && FormatMain(main, item, kwargs.value).Ok?)
              && (r.Ok? ==> r.value == FormatMain(main, item, kwargs.value).value
                                       + if |item.traceback| > 0 && verbosity >= MediumVerbose
                                         then TracebackBlock(item.traceback) else "")
  {
    var fs := if formats.Some? && |formats.value| > 0 then formats.value else DefaultFormatting;
    var key := Min(verbosity, LowVerbose);
    if key !in fs then Err("KeyError: " + Decimal(key))
    else
      var spec := fs[key];
      var kwargs :- Kwargs(spec, item, strftime);
      var msg :- FormatMain(spec.mainMsg.GetOr(ItemMsg), item, kwargs);
      if |item.traceback| > 0 && verbosity >= MediumVerbose then Ok(msg + TracebackBlock(item.traceback))
      else Ok(msg)
  }

  /** Every verbosity from low upwards shares the low format; they differ only
      in the traceback block. */
  lemma HigherVerbosityUsesLowFormat(item: LogItem, formats: Option<map<nat, FormatSpec>>, verbosity: nat,
                                     strftime: (nat, string) -> string)
    requires verbosity >= LowVerbose
    ensures var low := Render(item, formats, LowVerbose, strftime);
            var r := Render(item, formats, verbosity, strftime);
            && (r.Ok? <==> low.Ok?)
            && (r.Ok? ==> r.value == if |item.traceback| > 0 && verbosity >= MediumVerbose
                                     then low.value + TracebackBlock(item.traceback) else low.value)
  {
    assert Min(verbosity, LowVerbose) == Min(LowVerbose, LowVerbose) == LowVerbose;
  }

  /** At medium verbosity and above the rendered text is the low-verbosity
      line, the traceback marker, and a block the traceback reads back from. */
  lemma RenderKeepsTraceback(item: LogItem, formats: Option<map<nat, FormatSpec>>, verbosity: nat,
                             strftime: (nat, string) -> string)
    requires verbosity >= MediumVerbose && |item.traceback| > 0
    requires Render(item, formats, verbosity, strftime).Ok?
    ensures var text := Render(item, formats, verbosity, strftime).value;
            var low := Render(item, formats, LowVerbose, strftime);
            var head := LineSep + "------>";
            && low.Ok?
            && |text| >= |low.value| + |head|
            && text[..|low.value|] == low.value
            && text[|low.value|..|low.value| + |head|] == head
            && Flatten(Unindent(SplitLines(text[|low.value| + |head|..]))) == item.traceback
  {
    HigherVerbosityUsesLowFormat(item, formats, verbosity, strftime);
    TracebackBlockRoundTrip(item.traceback);
    var low := Render(item, formats, LowVerbose, strftime).value;
    var block := TracebackBlock(item.traceback);
    var head := LineSep + "------>";
    var text := low + block;
    assert text[..|low|] == low;
    assert text[|low|..] == block;
    assert text[|low|..|low| + |head|] == block[..|head|];
    assert text[|low| + |head|..] == block[|head|..];
  }

  /** With the default formatting, no verbosity prints the bare message and low
      verbosity prints `time | first letter of the level | message`. */
  lemma DefaultLines(item: LogItem, strftime: (nat, string) -> string)
    requires |item.level| > 0
    ensures Render(item, None, NoVerbose, strftime) == Ok(item.msg)
    ensures Render(item, None, LowVerbose, strftime)
            == Ok(strftime(item.createdAt, "%H:%M:%S") + (" | " + ([item.level[0]] + (" | " + item.msg))))
  {
    DefaultNoVerboseLine(item, strftime);
    DefaultLowVerboseLine(item, strftime);
  }

  /** No verbosity, default formatting: the bare message. */
  lemma DefaultNoVerboseLine(item: LogItem, strftime: (nat, string) -> string)
    ensures Render(item, None, NoVerbose, strftime) == Ok(item.msg)
  {
    var noKwargs: map<string, string> := map[];
    assert Kwargs(DefaultFormatting[NoVerbose], item, strftime) == Ok(noKwargs);
    assert FormatMain(ItemMsg, item, noKwargs) == Ok(item.msg) by {
      assert item.msg + "" == item.msg;
    }
  }

  /** Low verbosity, default formatting: time, level initial and message. */
  lemma DefaultLowVerboseLine(item: LogItem, strftime: (nat, string) -> string)
    requires |item.level| > 0
    ensures Render(item, None, LowVerbose, strftime)
            == Ok(strftime(item.createdAt, "%H:%M:%S") + (" | " + ([item.level[0]] + (" | " + item.msg))))
  {
    var low := DefaultFormatting[LowVerbose];
    var stamp := strftime(item.createdAt, "%H:%M:%S");
    var kwargs := map["created_at" := stamp];
    assert Kwargs(low, item, strftime) == Ok(kwargs);
    DefaultLowMain(item, kwargs);
    var line := stamp + (" | " + ([item.level[0]] + (" | " + item.msg)));
    assert Min(LowVerbose, LowVerbose) == LowVerbose && LowVerbose in DefaultFormatting;
    var r := Render(item, None, LowVerbose, strftime);
    assert r.Ok? ==> r.value == line + "";
    assert line + "" == line;
  }

  /** The default low-verbosity main format, segment by segment. */
  lemma DefaultLowMain(item: LogItem, kwargs: map<string, string>)
    requires |item.level| > 0 && "created_at" in kwargs
    ensures DefaultFormatting[LowVerbose].mainMsg.GetOr(ItemMsg) == DefaultFormatting[LowVerbose].mainMsg.value
    ensures FormatMain(DefaultFormatting[LowVerbose].mainMsg.value, item, kwargs)
            == Ok(kwargs["created_at"] + (" | " + ([item.level[0]] + (" | " + item.msg))))
  {
    var t := DefaultFormatting[LowVerbose].mainMsg.value;
    assert t == [Field("created_at"), Lit(" | "), Field("item.level[0]"), Lit(" | "), Field("item.msg")];
    assert t[4..] == ItemMsg;
    assert FormatMain(t[4..][1..], item, kwargs) == Ok("");
    assert item.msg + "" == item.msg;
    assert FormatMain(t[4..], item, kwargs) == Ok(item.msg);
    assert FormatMain(t[3..], item, kwargs) == Ok(" | " + item.msg);
    assert FieldValue(item, kwargs, "item.level[0]") == Ok([item.level[0]]) by {
      assert "item." + "level" + "[" + Decimal(0) + "]" == "item.level[0]";
      IndexedItemField(item, kwargs, "level", 0);
    }
    assert FormatMain(t[2..], item, kwargs) == Ok([item.level[0]] + (" | " + item.msg));
    assert FormatMain(t[1..], item, kwargs) == Ok(" | " + ([item.level[0]] + (" | " + item.msg)));
    assert FieldValue(item, kwargs, "created_at") == Ok(kwargs["created_at"]) by {
      var n := "created_at";
      assert n[|n| - 1] == 't';
      assert n[..5][0] == 'c';
    }
  }

  /** `log`: the logger method named by the lower-cased level, if the logger
      has one. */
  function Log(item: LogItem, hasMethod: string -> bool): (r: Result<string>)
    ensures r.Ok? <==> hasMethod(Lower(item.level))
    ensures r.Ok? ==> r.value == Lower(item.level)
  {
    var name := Lower(item.level);
    if hasMethod(name) then Ok(name) else Err("AttributeError: '" + name + "'")
  }

  /** The level's case does not matter: `INFO` and `info` reach the same
      method. */
  lemma LogIgnoresCase(item: LogItem, hasMethod: string -> bool)
    ensures Log(item.(level := Lower(item.level)), hasMethod) == Log(item, hasMethod)
  {
    var l := Lower(item.level);
    assert Lower(l) == l by {
      forall i | 0 <= i < |l|
        ensures Lower(l)[i] == l[i]
      {
        assert l[i] == LowerChar(item.level[i]);
      }
    }
  }
}
