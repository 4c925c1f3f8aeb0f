/**
 * The text template editor of `TemplateEditor.tsx`: the template body, its variable list,
 * the draft of the variable being added, and the string helpers the form uses.
 *
 * The string helpers are functions: `Split` and `Join` stand for JavaScript's
 * `String.prototype.split` with a one-character separator and `Array.prototype.join`,
 * `Trim` for `String.prototype.trim`, and `FormatFieldName` for the component's helper of
 * that name. The class `TemplateEditor` holds the component's fields; variable ids come
 * from a counter that stands for `Date.now()`.
 */
module TextTemplate {
  import opened Wrappers
  import Seqs

  // ---------------------------------------------------------------------------
  // split and join

  /** `s.split(sep)` for a one-character separator: the pieces between separators, at least one. */
  function Split(s: string, sep: char): (r: seq<string>)
    ensures |r| >= 1
    ensures forall k :: 0 <= k < |r| ==> sep !in r[k]
  {
    if s == [] then [""]
    else
      var rest := Split(s[1..], sep);
      if s[0] == sep then [""] + rest
      else [[s[0]] + rest[0]] + rest[1..]
  }

  /** `ws.join(sep)`. */
  function Join(ws: seq<string>, sep: string): string {
    if ws == [] then ""
    else if |ws| == 1 then ws[0]
    else ws[0] + sep + Join(ws[1..], sep)
  }

  /** The number of occurrences of `c` in `s`. */
  function Count(s: string, c: char): nat {
    if s == [] then 0 else (if s[0] == c then 1 else 0) + Count(s[1..], c)
  }

  /** Joining the pieces of a split with the separator gives the text back. */
  lemma {:induction false} JoinSplit(s: string, sep: char)
    ensures Join(Split(s, sep), [sep]) == s
  {
    if s != [] {
      var rest := Split(s[1..], sep);
      JoinSplit(s[1..], sep);
      if s[0] == sep {
        assert Split(s, sep) == [""] + rest;
        assert Join([""] + rest, [sep]) == "" + [sep] + Join(rest, [sep]);
      } else {
        var ws := [[s[0]] + rest[0]] + rest[1..];
        assert Split(s, sep) == ws;
        if |rest| == 1 {
          assert Join(rest, [sep]) == rest[0];
        } else {
          assert Join(rest, [sep]) == rest[0] + [sep] + Join(rest[1..], [sep]);
          assert ws[1..] == rest[1..];
        }
      }
    }
  }

  /** A split yields one more piece than there are separators. */
  lemma {:induction false} SplitCount(s: string, sep: char)
    ensures |Split(s, sep)| == Count(s, sep) + 1
  {
    if s != [] {
      SplitCount(s[1..], sep);
    }
  }

  /** Splitting a join of separator-free pieces gives the pieces back. */
  lemma {:induction false} SplitJoin(ws: seq<string>, sep: char)
    requires |ws| >= 1
    requires forall k :: 0 <= k < |ws| ==> sep !in ws[k]
    ensures Split(Join(ws, [sep]), sep) == ws
    decreases |ws|, |ws[0]|
  {
    if |ws| == 1 {
      SplitPieceWithoutSep(ws[0], sep);
    } else {
      var tail := Join(ws[1..], [sep]);
      SplitJoin(ws[1..], sep);
      SplitPrefix(ws[0], sep, tail);
      assert Join(ws, [sep]) == ws[0] + [sep] + tail;
      assert ws == [ws[0]] + ws[1..];
    }
  }

  lemma {:induction false} SplitPieceWithoutSep(w: string, sep: char)
    requires sep !in w
    ensures Split(w, sep) == [w]
  {
    if w != [] {
      SplitPieceWithoutSep(w[1..], sep);
      assert [w[0]] + w[1..] == w;
    }
  }

  /** A separator-free piece in front of a separator becomes the first piece of the split. */
  lemma {:induction false} SplitPrefix(w: string, sep: char, tail: string)
    requires sep !in w
    ensures Split(w + [sep] + tail, sep) == [w] + Split(tail, sep)
  {
    if w == [] {
      assert w + [sep] + tail == [sep] + tail;
      assert ([sep] + tail)[1..] == tail;
    } else {
      var s := w + [sep] + tail;
      assert s[0] == w[0];
      assert s[1..] == w[1..] + [sep] + tail;
      SplitPrefix(w[1..], sep, tail);
      assert [w[0]] + w[1..] == w;
    }
  }

  // ---------------------------------------------------------------------------
  // formatFieldName

  /** The upper case of a character; only the ASCII letters a–z change. */
  function UpperCase(c: char): (r: char)
    ensures r == ' ' <==> c == ' '
  {
    if 'a' <= c <= 'z' then (c as int - 'a' as int + 'A' as int) as char else c
  }

  /** `word.charAt(0).toUpperCase() + word.slice(1)`. */
  function Capitalize(w: string): (r: string)
    ensures |r| == |w|
    ensures |w| > 0 ==> r[0] == UpperCase(w[0]) && r[1..] == w[1..]
    ensures forall k :: 0 <= k < |r| ==> (r[k] == ' ' <==> w[k] == ' ')
  {
    if w == [] then "" else [UpperCase(w[0])] + w[1..]
  }

  /** Each piece capitalized. */
  function CapitalizeAll(pieces: seq<string>): (r: seq<string>)
    ensures |r| == |pieces|
    ensures forall k :: 0 <= k < |r| ==> r[k] == Capitalize(pieces[k])
  {
    seq(|pieces|, k requires 0 <= k < |pieces| => Capitalize(pieces[k]))
  }

  /** The words `formatFieldName` joins: each '_'-separated piece, capitalized. */
  function FieldWords(field: string): seq<string> {
    CapitalizeAll(Split(field, '_'))
  }

  /** `formatFieldName(field)`: the capitalized pieces joined by single spaces. */
  function FormatFieldName(field: string): string {
    Join(FieldWords(field), " ")
  }

  /**
   * For a field name without spaces, the formatted name splits at its spaces into exactly
   * the capitalized '_'-separated pieces, so it has one more word than the name has '_'.
   */
  lemma FormatFieldNameSpec(field: string)
    requires ' ' !in field
    ensures Split(FormatFieldName(field), ' ') == FieldWords(field)
    ensures |Split(FormatFieldName(field), ' ')| == Count(field, '_') + 1
    ensures forall k :: 0 <= k < |FieldWords(field)| ==> |FieldWords(field)[k]| == |Split(field, '_')[k]|
  {
    var pieces := Split(field, '_');
    var words := FieldWords(field);
    forall k | 0 <= k < |words| ensures ' ' !in words[k] {
      JoinSplit(field, '_');
      PieceInText(pieces, k, '_');
      assert ' ' !in pieces[k];
    }
    SplitJoin(words, ' ');
    SplitCount(field, '_');
  }

  /** Every character of a piece of a join occurs in the joined text. */
  lemma {:induction false} PieceInText(ws: seq<string>, k: nat, sep: char)
    requires k < |ws|
    ensures forall c :: c in ws[k] ==> c in Join(ws, [sep])
  {
    if |ws| > 1 {
      if k > 0 {
        PieceInText(ws[1..], k - 1, sep);
        assert Join(ws, [sep]) == ws[0] + [sep] + Join(ws[1..], [sep]);
      } else {
        assert Join(ws, [sep]) == ws[0] + [sep] + Join(ws[1..], [sep]);
      }
    }
  }

  /** `formatFieldName('company_name')` is `'Company Name'`. */
  lemma FormatFieldNameExample(field: string)
    requires field == "company_name"
    ensures FormatFieldName(field) == "Company Name"
  {
    CompanyNameSplit(field);
    CompanyNameWords(Split(field, '_'));
    JoinTwo("Company", "Name", " ");
  }

  lemma CompanyNameSplit(field: string)
    requires field == "company_name"
    ensures Split(field, '_') == ["company", "name"]
  {
    assert field == "company" + ['_'] + "name";
    SplitPrefix("company", '_', "name");
    SplitPieceWithoutSep("name", '_');
  }

  lemma JoinTwo(a: string, b: string, sep: string)
    ensures Join([a, b], sep) == a + sep + b
  {
    assert [a, b][1..] == [b];
  }

  lemma CompanyNameWords(pieces: seq<string>)
    requires pieces == ["company", "name"]
    ensures CapitalizeAll(pieces) == ["Company", "Name"]
  {
    assert UpperCase('c') == 'C' && UpperCase('n') == 'N';
    assert Capitalize(pieces[0]) == ['C'] + "ompany" == "Company";
    assert Capitalize(pieces[1]) == ['N'] + "ame" == "Name";
  }

  // ---------------------------------------------------------------------------
  // Dropdown options

  /** The characters `String.prototype.trim` strips: white space and line terminators. */
  predicate IsSpace(c: char) {
    || c == '\t' || c == '\n' || c == '\U{000B}' || c == '\U{000C}' || c == '\r' || c == ' '
    || c == '\U{00A0}' || c == '\U{1680}' || ('\U{2000}' <= c <= '\U{200A}')
    || c == '\U{2028}' || c == '\U{2029}' || c == '\U{202F}' || c == '\U{205F}'
    || c == '\U{3000}' || c == '\U{FEFF}'
  }

  /** The number of white-space characters `s` starts with. */
  function LeadingSpaces(s: string): (n: nat)
    ensures n <= |s|
    ensures forall k :: 0 <= k < n ==> IsSpace(s[k])
    ensures n < |s| ==> !IsSpace(s[n])
  {
    if s == [] || !IsSpace(s[0]) then 0
    else
      var n := LeadingSpaces(s[1..]);
      assert forall k :: 1 <= k < n + 1 ==> s[k] == s[1..][k - 1];
      n + 1
  }

  /** The number of white-space characters `s` ends with. */
  function TrailingSpaces(s: string): (n: nat)
    ensures n <= |s|
    ensures forall k :: |s| - n <= k < |s| ==> IsSpace(s[k])
    ensures n < |s| ==> !IsSpace(s[|s| - n - 1])
  {
    if s == [] || !IsSpace(s[|s| - 1]) then 0
    else
      var n := TrailingSpaces(s[..|s| - 1]);
      assert forall k :: |s| - n - 1 <= k < |s| - 1 ==> s[k] == s[..|s| - 1][k];
      n + 1
  }

  /** `s.trim()`. */
  function Trim(s: string): string {
    var t := s[LeadingSpaces(s)..];
    t[..|t| - TrailingSpaces(t)]
  }

  /**
   * Trimming keeps a contiguous part of the text, drops only white space on either side,
   * and leaves a text that neither starts nor ends with white space.
   */
  lemma TrimSpec(s: string)
    ensures var r, i := Trim(s), LeadingSpaces(s);
      && i + |r| <= |s|
      && r == s[i..i + |r|]
      && (forall k :: 0 <= k < i ==> IsSpace(s[k]))
      && (forall k :: i + |r| <= k < |s| ==> IsSpace(s[k]))
      && TrimmedIsFixed(r)
  {
    var i := LeadingSpaces(s);
    var t := s[i..];
    var n := |t| - TrailingSpaces(t);
    assert Trim(s) == t[..n];
    TrimmedPart(s, i, n);
    TrimBorders(t);
  }

  /** Trimming twice is trimming once. */
  lemma TrimIdempotent(s: string)
    ensures Trim(Trim(s)) == Trim(s)
  {
    var t := s[LeadingSpaces(s)..];
    TrimBorders(t);
    TrimOfTrimmed(Trim(s));
  }

  /** The part of `s` between its `i` leading and its trailing white-space characters. */
  lemma TrimmedPart(s: string, i: nat, n: nat)
    requires i <= |s| && n == |s[i..]| - TrailingSpaces(s[i..])
    ensures i + n <= |s| && s[i..][..n] == s[i..i + n]
    ensures forall k :: i + n <= k < |s| ==> IsSpace(s[k])
  {
    var t := s[i..];
    forall k | i + n <= k < |s| ensures IsSpace(s[k]) {
      assert s[k] == t[k - i];
    }
  }

  /** A text without leading white space, with its trailing white space dropped, is trimmed. */
  lemma TrimBorders(t: string)
    requires t == [] || !IsSpace(t[0])
    ensures TrimmedIsFixed(t[..|t| - TrailingSpaces(t)])
  {
    var r := t[..|t| - TrailingSpaces(t)];
    if r != [] {
      assert r[0] == t[0];
      assert r[|r| - 1] == t[|t| - TrailingSpaces(t) - 1];
    }
  }

  /** A text that neither starts nor ends with white space. */
  predicate TrimmedIsFixed(r: string) {
    r == [] || (!IsSpace(r[0]) && !IsSpace(r[|r| - 1]))
  }

  /** Trimming a text without white space at either end changes nothing. */
  lemma TrimOfTrimmed(r: string)
    requires TrimmedIsFixed(r)
    ensures Trim(r) == r
  {
    if r != [] {
      assert LeadingSpaces(r) == 0;
      assert r[0..] == r;
      assert TrailingSpaces(r) == 0;
    }
  }

  /** A text of white space only trims to the empty text. */
  lemma TrimAllSpace(s: string)
    requires forall k :: 0 <= k < |s| ==> IsSpace(s[k])
    ensures Trim(s) == ""
  {
    if s != [] {
      assert LeadingSpaces(s) == |s|;
    }
  }

  lemma TrimExamples(padded: string, blank: string)
    requires padded == "  Option 2 " && blank == " \t "
    ensures Trim(padded) == "Option 2"
    ensures Trim(blank) == "" && Trim("") == ""
  {
    assert padded[0] == ' ' && padded[1] == ' ' && padded[2] == 'O';
    LeadingSpacesIs(padded, 2);
    var t := padded[2..];
    assert t == "Option 2 ";
    assert t[8] == ' ' && t[7] == '2';
    TrailingSpacesIs(t, 1);
    assert t[..8] == "Option 2";
    TrimAllSpace(blank);
  }

  /** The leading white space is the longest white-space prefix. */
  lemma LeadingSpacesIs(s: string, n: nat)
    requires n <= |s| && (forall k :: 0 <= k < n ==> IsSpace(s[k])) && (n < |s| ==> !IsSpace(s[n]))
    ensures LeadingSpaces(s) == n
  {
  }

  /** The trailing white space is the longest white-space suffix. */
  lemma TrailingSpacesIs(s: string, n: nat)
    requires n <= |s| && (forall k :: |s| - n <= k < |s| ==> IsSpace(s[k]))
    requires n < |s| ==> !IsSpace(s[|s| - n - 1])
    ensures TrailingSpaces(s) == n
  {
  }

  /** `value.split(',').map(o => o.trim())`: the dropdown options typed in the draft form. */
  function ParseOptions(input: string): (r: seq<string>)
    ensures |r| == |Split(input, ',')|
    ensures forall k :: 0 <= k < |r| ==> r[k] == Trim(Split(input, ',')[k])
  {
    var pieces := Split(input, ',');
    seq(|pieces|, k requires 0 <= k < |pieces| => Trim(pieces[k]))
  }

  /**
   * There is one option per comma-separated piece, so one more than there are commas, and
   * each option is its piece without surrounding white space and without a comma.
   */
  lemma ParseOptionsSpec(input: string)
    ensures |ParseOptions(input)| == Count(input, ',') + 1
    ensures forall k :: 0 <= k < |ParseOptions(input)| ==>
      && ',' !in ParseOptions(input)[k]
      && TrimmedIsFixed(ParseOptions(input)[k])
  {
    SplitCount(input, ',');
    var pieces := Split(input, ',');
    forall k | 0 <= k < |pieces|
      ensures ',' !in Trim(pieces[k]) && TrimmedIsFixed(Trim(pieces[k]))
    {
      TrimSpec(pieces[k]);
      var r := Trim(pieces[k]);
      var i := LeadingSpaces(pieces[k]);
      forall c | c in r ensures c != ',' {
        var m :| 0 <= m < |r| && r[m] == c;
        assert r[m] == pieces[k][i + m];
      }
    }
  }

  /**
   * Options typed as the form's hint shows them, separated by ", ", parse back to exactly
   * those options, provided none of them contains a comma or starts or ends with white space.
   */
  lemma ParseOptionsOfTyped(opts: seq<string>)
    requires |opts| >= 1
    requires forall k :: 0 <= k < |opts| ==> ',' !in opts[k] && TrimmedIsFixed(opts[k])
    ensures ParseOptions(Join(opts, ", ")) == opts
  {
    var pads := Padded(opts);
    JoinCommaSpace(opts);
    assert [','] == ",";
    forall k | 0 <= k < |pads| ensures ',' !in pads[k] {
      if k > 0 {
        assert pads[k] == " " + opts[k];
      }
    }
    SplitJoin(pads, ',');
    forall k | 0 <= k < |opts| ensures Trim(pads[k]) == opts[k] {
      if k == 0 {
        TrimOfTrimmed(opts[0]);
      } else {
        TrimPadded(opts[k]);
      }
    }
  }

  /** The pieces a split at ',' makes of options joined with ", ": all but the first start with a space. */
  function Padded(opts: seq<string>): (r: seq<string>)
    requires |opts| >= 1
    ensures |r| == |opts| && r[0] == opts[0]
    ensures forall k :: 1 <= k < |opts| ==> r[k] == " " + opts[k]
  {
    [opts[0]] + seq(|opts| - 1, k requires 0 <= k < |opts| - 1 => " " + opts[k + 1])
  }

  lemma {:induction false} JoinCommaSpace(opts: seq<string>)
    requires |opts| >= 1
    ensures Join(opts, ", ") == Join(Padded(opts), ",")
    decreases |opts|
  {
    if |opts| > 1 {
      var rest := opts[1..];
      JoinCommaSpace(rest);
      JoinFront(" ", Padded(rest), ",");
      assert Padded(opts)[1..] == [" " + Padded(rest)[0]] + Padded(rest)[1..];
    }
  }

  /** Putting `p` in front of a join is putting it in front of the first piece. */
  lemma JoinFront(p: string, ws: seq<string>, sep: string)
    requires |ws| >= 1
    ensures p + Join(ws, sep) == Join([p + ws[0]] + ws[1..], sep)
  {
    var vs := [p + ws[0]] + ws[1..];
    if |ws| == 1 {
      assert vs == [p + ws[0]];
    } else {
      var tail := Join(ws[1..], sep);
      assert vs[1..] == ws[1..];
      assert Join(vs, sep) == (p + ws[0]) + sep + tail;
      assert Join(ws, sep) == ws[0] + sep + tail;
    }
  }

  /** One leading space in front of a trimmed text is trimmed away. */
  lemma TrimPadded(o: string)
    requires TrimmedIsFixed(o)
    ensures Trim(" " + o) == o
  {
    var s := " " + o;
    if o == [] {
      TrimAllSpace(s);
    } else {
      LeadingSpacesIs(s, 1);
      assert s[1..] == o;
      TrailingSpacesIs(o, 0);
    }
  }

  // ---------------------------------------------------------------------------
  // Variables

  datatype VariableType = TextType | NumberType | DateType | DropdownType

  type VariableId = nat

  datatype Variable = Variable(
    id: VariableId,
    name: string,
    varType: VariableType,
    defaultValue: Option<string>,
    options: Option<seq<string>>)

  /** The `Partial<Variable>` the add-variable form fills in. */
  datatype VariableDraft = VariableDraft(
    name: Option<string>,
    varType: Option<VariableType>,
    defaultValue: Option<string>,
    options: Option<seq<string>>)

  /** `{ type: 'text' }`. */
  const FreshDraft := VariableDraft(None, Some(TextType), None, None)

  /**
   * The variable `handleAddVariable` builds from the draft, or `None` when the draft has no
   * name or an empty one. The type defaults to text; default value and options are copied.
   */
  function DraftVariable(draft: VariableDraft, id: VariableId): (r: Option<Variable>)
    ensures r.None? <==> draft.name.None? || draft.name.value == ""
    ensures r.Some? ==>
      && r.value.id == id && r.value.name == draft.name.value
      && r.value.varType == (if draft.varType.Some? then draft.varType.value else TextType)
      && r.value.defaultValue == draft.defaultValue && r.value.options == draft.options
  {
    if draft.name.None? || draft.name.value == "" then None
    else Some(Variable(id, draft.name.value, draft.varType.GetOr(TextType), draft.defaultValue, draft.options))
  }

  /** The text `handleInsertVariable(name)` appends: the placeholder with one space on each side. */
  function Placeholder(name: string): (r: string)
    ensures |r| == |name| + 6
    ensures r[..3] == " {{" && r[3..3 + |name|] == name && r[3 + |name|..] == "}} "
  {
    " {{" + name + "}} "
  }

  /**
   * After a variable is added the form is reset to a draft without a name, so pressing "Add"
   * again adds nothing until a name is typed.
   */
  lemma FreshDraftAddsNothing(id: VariableId)
    ensures DraftVariable(FreshDraft, id).None?
  {
  }

  /** Different variable names give different placeholders: the name can be read back. */
  lemma PlaceholderNamesDistinct(a: string, b: string)
    ensures Placeholder(a) == Placeholder(b) <==> a == b
  {
    if Placeholder(a) == Placeholder(b) {
      assert |a| == |b|;
      assert a == Placeholder(a)[3..3 + |a|];
    }
  }

  /** `variables.filter(v => v.id !== id)`. */
  function DeleteVariable(variables: seq<Variable>, id: VariableId): seq<Variable> {
    Seqs.Filter(variables, OtherVariable(id))
  }

  function OtherVariable(id: VariableId): Variable -> bool {
    (v: Variable) => v.id != id
  }

  predicate HasVariable(variables: seq<Variable>, id: VariableId) {
    exists i :: 0 <= i < |variables| && variables[i].id == id
  }

  /**
   * Deleting removes exactly the variables with the id: every other variable stays, and the
   * kept ones keep their order (deleting from a concatenation is the concatenation of the
   * deletions; with unique ids it is the list without that one index).
   */
  lemma DeleteVariableSpec(variables: seq<Variable>, id: VariableId)
    ensures !HasVariable(DeleteVariable(variables, id), id)
    ensures forall v :: v in DeleteVariable(variables, id) <==> v in variables && v.id != id
    ensures !HasVariable(variables, id) ==> DeleteVariable(variables, id) == variables
    ensures forall k :: 0 <= k < |variables| && variables[k].id == id
                        && UniqueVariableIds(variables) ==>
      DeleteVariable(variables, id) == Seqs.RemoveAt(variables, k)
    ensures forall a, b :: variables == a + b ==>
      DeleteVariable(variables, id) == DeleteVariable(a, id) + DeleteVariable(b, id)
  {
    var keep := OtherVariable(id);
    forall v ensures v in DeleteVariable(variables, id) <==> v in variables && v.id != id {
      Seqs.FilterMembership(variables, keep, v);
    }
    if !HasVariable(variables, id) {
      Seqs.FilterAllKept(variables, keep);
    }
    forall k | 0 <= k < |variables| && variables[k].id == id
               && UniqueVariableIds(variables)
      ensures DeleteVariable(variables, id) == Seqs.RemoveAt(variables, k)
    {
      Seqs.FilterRemovesOne(variables, k, keep);
    }
    forall a, b | variables == a + b
      ensures DeleteVariable(variables, id) == DeleteVariable(a, id) + DeleteVariable(b, id)
    {
      Seqs.FilterAppend(a, b, keep);
    }
  }

  /** No two variables share an id, so an id names one variable. */
  predicate UniqueVariableIds(variables: seq<Variable>) {
    forall i, j :: 0 <= i < j < |variables| ==> variables[i].id != variables[j].id
  }

  /** The id counter's start: above every id of the initial variables. */
  function NextVariableId(variables: seq<Variable>): (r: VariableId)
    ensures forall i :: 0 <= i < |variables| ==> variables[i].id < r
  {
    Seqs.KeyBound(variables, (v: Variable) => v.id)
  }

  class TemplateEditor {
    var templateName: string
    var content: string
    var variables: seq<Variable>
    var showVariableModal: bool
    var newVariable: VariableDraft
    /** Stands for `Date.now()`. */
    var nextId: VariableId

    /** Variable ids are below the counter, so a new variable's id is fresh. */
    predicate Valid()
      reads this
    {
      forall i :: 0 <= i < |variables| ==> variables[i].id < nextId
    }

    /** The fields of `initialTemplate`, when given; empty ones otherwise. */
    constructor (initialName: Option<string>, initialContent: Option<string>, initialVariables: Option<seq<Variable>>)
      ensures Valid()
      ensures templateName == initialName.GetOr("") && content == initialContent.GetOr("")
      ensures variables == initialVariables.GetOr([])
      ensures !showVariableModal && newVariable == FreshDraft
    {
      templateName := initialName.GetOr("");
      content := initialContent.GetOr("");
      variables := initialVariables.GetOr([]);
      showVariableModal := false;
      newVariable := FreshDraft;
      nextId := NextVariableId(initialVariables.GetOr([]));
    }

    method HandleAddVariable()
      requires Valid()
      modifies this
      ensures Valid()
      ensures DraftVariable(old(newVariable), old(nextId)).None? ==>
        variables == old(variables) && newVariable == old(newVariable) && showVariableModal == old(showVariableModal)
      ensures DraftVariable(old(newVariable), old(nextId)).Some? ==>
        && variables == old(variables) + [DraftVariable(old(newVariable), old(nextId)).value]
        && newVariable == FreshDraft && !showVariableModal
      ensures UniqueVariableIds(old(variables)) ==> UniqueVariableIds(variables)
      ensures content == old(content) && templateName == old(templateName)
      ensures nextId == old(nextId) + (if DraftVariable(old(newVariable), old(nextId)).Some? then 1 else 0)
    {
      if newVariable.name.Some? && newVariable.name.value != "" {
        var variable := Variable(nextId, newVariable.name.value, newVariable.varType.GetOr(TextType),
                                 newVariable.defaultValue, newVariable.options);
        nextId := nextId + 1;
        variables := variables + [variable];
        newVariable := FreshDraft;
        showVariableModal := false;
      }
    }

    method HandleInsertVariable(varName: string)
      modifies this
      ensures content == old(content) + Placeholder(varName)
      ensures content[..|old(content)|] == old(content)
      ensures variables == old(variables) && newVariable == old(newVariable) && nextId == old(nextId)
      ensures showVariableModal == old(showVariableModal) && templateName == old(templateName)
    {
      content := content + " {{" + varName + "}} ";
    }

    method HandleInsertCompanyInfo(field: string, value: string)
      modifies this
      ensures content == old(content) + value
      ensures variables == old(variables) && newVariable == old(newVariable) && nextId == old(nextId)
      ensures showVariableModal == old(showVariableModal) && templateName == old(templateName)
    {
      content := content + value;
    }

    method HandleDeleteVariable(id: VariableId)
      requires Valid()
      modifies this
      ensures Valid()
      ensures variables == DeleteVariable(old(variables), id)
      ensures content == old(content) && newVariable == old(newVariable) && nextId == old(nextId)
      ensures templateName == old(templateName) && showVariableModal == old(showVariableModal)
    {
      var before := variables;
      variables := DeleteVariable(variables, id);
      forall i | 0 <= i < |variables| ensures variables[i].id < nextId {
        Seqs.FilterMembership(before, OtherVariable(id), variables[i]);
      }
    }

    method SetTemplateName(name: string)
      modifies this
      ensures templateName == name && content == old(content) && variables == old(variables)
      ensures newVariable == old(newVariable) && showVariableModal == old(showVariableModal) && nextId == old(nextId)
    {
      templateName := name;
    }

    /** Typing in the template body. */
    method EditContent(text: string)
      modifies this
      ensures content == text && variables == old(variables) && newVariable == old(newVariable)
      ensures templateName == old(templateName) && showVariableModal == old(showVariableModal) && nextId == old(nextId)
    {
      content := text;
    }

    method OpenVariableModal()
      modifies this
      ensures showVariableModal && newVariable == old(newVariable) && variables == old(variables)
      ensures templateName == old(templateName) && content == old(content) && nextId == old(nextId)
    {
      showVariableModal := true;
    }

    method CloseVariableModal()
      modifies this
      ensures !showVariableModal && newVariable == old(newVariable) && variables == old(variables)
      ensures templateName == old(templateName) && content == old(content) && nextId == old(nextId)
    {
      showVariableModal := false;
    }

    method SetDraftName(name: string)
      modifies this
      ensures newVariable == old(newVariable).(name := Some(name)) && variables == old(variables)
      ensures templateName == old(templateName) && content == old(content)
      ensures showVariableModal == old(showVariableModal) && nextId == old(nextId)
    {
      newVariable := newVariable.(name := Some(name));
    }

    method SetDraftType(t: VariableType)
      modifies this
      ensures newVariable == old(newVariable).(varType := Some(t)) && variables == old(variables)
      ensures templateName == old(templateName) && content == old(content)
      ensures showVariableModal == old(showVariableModal) && nextId == old(nextId)
    {
      newVariable := newVariable.(varType := Some(t));
    }

    method SetDraftDefault(value: string)
      modifies this
      ensures newVariable == old(newVariable).(defaultValue := Some(value)) && variables == old(variables)
      ensures templateName == old(templateName) && content == old(content)
      ensures showVariableModal == old(showVariableModal) && nextId == old(nextId)
    {
      newVariable := newVariable.(defaultValue := Some(value));
    }

    /** The options field of the draft form, shown for dropdown variables. */
    method SetDraftOptions(input: string)
      modifies this
      ensures newVariable == old(newVariable).(options := Some(ParseOptions(input))) && variables == old(variables)
      ensures templateName == old(templateName) && content == old(content)
      ensures showVariableModal == old(showVariableModal) && nextId == old(nextId)
    {
      newVariable := newVariable.(options := Some(ParseOptions(input)));
    }
  }
}
