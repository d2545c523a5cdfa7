/** The migration rule that renames outdated component input names in
    templates and stylesheets: every occurrence of an old input name is
    replaced by recording a removal and a right-hand insertion on the update
    recorder of the file the resource belongs to. */
module InputNames {
  import opened Recorder

  datatype Option<T> = None | Some(value: T)

  /** Where an old name may be renamed in a template: on elements carrying one
      of `attributes`, or on elements whose tag is one of `elements`. A scope
      that is present but empty is still present. */
  datatype Whitelist = Whitelist(elements: Option<seq<string>>, attributes: Option<seq<string>>)

  /** One entry of the rename table. */
  datatype InputNameUpgradeData = InputNameUpgradeData(replace: string, replaceWith: string, whitelist: Whitelist)

  /** A template or stylesheet: its text, the file it lives in and the offset
      at which that text starts inside the file. */
  datatype ResolvedResource = ResolvedResource(filePath: string, content: string, start: nat)

  datatype ResourceKind = Template | Stylesheet

  /** The occurrence finders the rule imports. Their bodies are not part of
      this model; each returns offsets relative to the text it is given. */
  datatype Finders = Finders(
    allSubstringIndices: (string, string) -> seq<nat>,                   // (content, literal)
    inputsOnElementWithAttr: (string, string, seq<string>) -> seq<nat>,  // (content, name, attributes)
    inputsOnElementWithTag: (string, string, seq<string>) -> seq<nat>)   // (content, name, tags)

  /** The attribute selector `[name]` that stylesheets use for an input. */
  function AttributeSelector(name: string): (s: string)
    ensures |s| == |name| + 2
    ensures s[0] == '[' && s[|s| - 1] == ']' && s[1..|s| - 1] == name
  {
    "[" + name + "]"
  }

  /** The edits `_replaceInputName` records for the relative `offsets` of a
      resource starting at `start`: each offset is translated to the file
      offset `start + o`, and there a removal of `width` characters is
      followed by the insertion of `newName` to its right, offset by offset. */
  function Replacements(start: nat, offsets: seq<nat>, width: nat, newName: string): (r: seq<Edit>)
    ensures |r| == 2 * |offsets|
    decreases |offsets|
  {
    if offsets == [] then []
    else
      var o := offsets[|offsets| - 1];
      Replacements(start, offsets[..|offsets| - 1], width, newName)
      + [Remove(start + o, width), InsertRight(start + o, newName)]
  }

  /** Replacing at one more offset appends that offset's pair. */
  lemma ReplacementsPrefix(start: nat, offsets: seq<nat>, width: nat, newName: string, j: nat)
    requires j < |offsets|
    ensures Replacements(start, offsets[..j + 1], width, newName)
         == Replacements(start, offsets[..j], width, newName)
            + [Remove(start + offsets[j], width), InsertRight(start + offsets[j], newName)]
  {
    assert offsets[..j + 1][..j] == offsets[..j];
  }

  /** The k-th offset yields the k-th remove/insertRight pair, both at file
      offset `start + offsets[k]`. */
  lemma {:induction false} ReplacementsAt(start: nat, offsets: seq<nat>, width: nat, newName: string, k: nat)
    requires k < |offsets|
    ensures var r := Replacements(start, offsets, width, newName);
      r[2 * k] == Remove(start + offsets[k], width) && r[2 * k + 1] == InsertRight(start + offsets[k], newName)
    decreases |offsets|
  {
    var init := offsets[..|offsets| - 1];
    if k < |init| {
      ReplacementsAt(start, init, width, newName, k);
      assert init[k] == offsets[k];
    }
  }

  /** What the attribute finder contributes for an entry: nothing unless the
      entry's whitelist has an attribute list (an empty list still counts). */
  function AttributeOffsets(entry: InputNameUpgradeData, content: string, f: Finders): seq<nat>
  {
    match entry.whitelist.attributes
    case Some(attributes) => f.inputsOnElementWithAttr(content, entry.replace, attributes)
    case None => []
  }

  /** What the tag finder contributes for an entry: nothing unless the
      entry's whitelist has an element list (an empty list still counts). */
  function ElementOffsets(entry: InputNameUpgradeData, content: string, f: Finders): seq<nat>
  {
    match entry.whitelist.elements
    case Some(elements) => f.inputsOnElementWithTag(content, entry.replace, elements)
    case None => []
  }

  /** The relative offsets a template yields for one entry (the local
      `relativeOffsets` of `visitTemplate`). */
  function TemplateOffsets(entry: InputNameUpgradeData, content: string, f: Finders): seq<nat>
  {
    AttributeOffsets(entry, content, f) + ElementOffsets(entry, content, f)
  }

  /** The k-th attribute-finder offset is the k-th collected offset and the
      k-th element-finder offset comes right after all attribute-finder offsets;
      every offset is kept as often as the finders report it. */
  lemma TemplateOffsetsOrder(entry: InputNameUpgradeData, content: string, f: Finders)
    ensures var r, attrs, elems := TemplateOffsets(entry, content, f),
                                   AttributeOffsets(entry, content, f), ElementOffsets(entry, content, f);
      |r| == |attrs| + |elems| &&
      (forall k :: 0 <= k < |attrs| ==> r[k] == attrs[k]) &&
      (forall k :: 0 <= k < |elems| ==> r[|attrs| + k] == elems[k]) &&
      multiset(r) == multiset(attrs) + multiset(elems)
  {
  }

  /** An offset is collected for a template exactly when a finder whose scope
      the entry configures returned it. */
  lemma TemplateOffsetsMembership(entry: InputNameUpgradeData, content: string, f: Finders, o: nat)
    ensures o in TemplateOffsets(entry, content, f) <==>
      (entry.whitelist.attributes.Some? &&
         o in f.inputsOnElementWithAttr(content, entry.replace, entry.whitelist.attributes.value)) ||
      (entry.whitelist.elements.Some? &&
         o in f.inputsOnElementWithTag(content, entry.replace, entry.whitelist.elements.value))
  {
    var attrs := AttributeOffsets(entry, content, f);
    var elems := ElementOffsets(entry, content, f);
    assert o in attrs + elems <==> o in multiset(attrs + elems);
  }

  /** An offset both finders report is kept twice, not merged. */
  lemma DuplicateOffsetsKept(entry: InputNameUpgradeData, content: string, f: Finders, o: nat)
    requires entry.whitelist.attributes.Some? && entry.whitelist.elements.Some?
    requires o in f.inputsOnElementWithAttr(content, entry.replace, entry.whitelist.attributes.value)
    requires o in f.inputsOnElementWithTag(content, entry.replace, entry.whitelist.elements.value)
    ensures multiset(TemplateOffsets(entry, content, f))[o] >= 2
  {
    var attrs := AttributeOffsets(entry, content, f);
    var elems := ElementOffsets(entry, content, f);
    assert multiset(attrs + elems) == multiset(attrs) + multiset(elems);
    assert o in multiset(attrs) && o in multiset(elems);
  }

  /** The edits recorded for one stylesheet and one table entry. */
  function StylesheetEntryEdits(entry: InputNameUpgradeData, res: ResolvedResource, f: Finders): seq<Edit>
  {
    var currentSelector := AttributeSelector(entry.replace);
    var offsets := f.allSubstringIndices(res.content, currentSelector);
    Replacements(res.start, offsets, |currentSelector|, AttributeSelector(entry.replaceWith))
  }

  /** The edits recorded for one template and one table entry. */
  function TemplateEntryEdits(entry: InputNameUpgradeData, res: ResolvedResource, f: Finders): seq<Edit>
  {
    var offsets := TemplateOffsets(entry, res.content, f);
    Replacements(res.start, offsets, |entry.replace|, entry.replaceWith)
  }

  /** For every offset at which the finder reports `[replace]`, a stylesheet
      records a removal of that selector's width at the absolute offset, then
      the new selector inserted to its right, in the finder's order. */
  lemma StylesheetEntryEditsAt(entry: InputNameUpgradeData, res: ResolvedResource, f: Finders)
    ensures var r, offsets := StylesheetEntryEdits(entry, res, f),
                              f.allSubstringIndices(res.content, AttributeSelector(entry.replace));
      |r| == 2 * |offsets| &&
      forall k :: 0 <= k < |offsets| ==>
        r[2 * k] == Remove(res.start + offsets[k], |entry.replace| + 2) &&
        r[2 * k + 1] == InsertRight(res.start + offsets[k], AttributeSelector(entry.replaceWith))
  {
    var offsets := f.allSubstringIndices(res.content, AttributeSelector(entry.replace));
    forall k | 0 <= k < |offsets| {
      ReplacementsAt(res.start, offsets, |entry.replace| + 2, AttributeSelector(entry.replaceWith), k);
    }
  }

  /** For every collected offset, a template records a removal of the bare old
      name at the absolute offset, then the new name inserted to its right, in
      the order the offsets were collected. */
  lemma TemplateEntryEditsAt(entry: InputNameUpgradeData, res: ResolvedResource, f: Finders)
    ensures var r, offsets := TemplateEntryEdits(entry, res, f), TemplateOffsets(entry, res.content, f);
      |r| == 2 * |offsets| &&
      forall k :: 0 <= k < |offsets| ==>
        r[2 * k] == Remove(res.start + offsets[k], |entry.replace|) &&
        r[2 * k + 1] == InsertRight(res.start + offsets[k], entry.replaceWith)
  {
    var offsets := TemplateOffsets(entry, res.content, f);
    forall k | 0 <= k < |offsets| {
      ReplacementsAt(res.start, offsets, |entry.replace|, entry.replaceWith, k);
    }
  }

  /** The edits one table entry contributes, by kind of resource. */
  function EntryEdits(kind: ResourceKind, entry: InputNameUpgradeData, res: ResolvedResource, f: Finders): seq<Edit>
  {
    match kind
    case Stylesheet => StylesheetEntryEdits(entry, res, f)
    case Template => TemplateEntryEdits(entry, res, f)
  }

  /** The edits `g` gives each entry, concatenated in table order. */
  function EditsOf(data: seq<InputNameUpgradeData>, g: InputNameUpgradeData -> seq<Edit>): seq<Edit>
    decreases |data|
  {
    if data == [] then []
    else EditsOf(data[..|data| - 1], g) + g(data[|data| - 1])
  }

  /** All edits one visit of `res` records, entry by entry in table order. */
  function Edits(kind: ResourceKind, data: seq<InputNameUpgradeData>, res: ResolvedResource, f: Finders): seq<Edit>
  {
    EditsOf(data, entry => EntryEdits(kind, entry, res, f))
  }

  /** Visiting one more entry appends that entry's edits. */
  lemma EditsPrefix(kind: ResourceKind, data: seq<InputNameUpgradeData>, i: nat, res: ResolvedResource, f: Finders)
    requires i < |data|
    ensures Edits(kind, data[..i + 1], res, f) == Edits(kind, data[..i], res, f) + EntryEdits(kind, data[i], res, f)
  {
    assert data[..i + 1][..i] == data[..i];
  }

  /** Concatenation over entries distributes over splitting the table. */
  lemma {:induction false} EditsOfConcat(a: seq<InputNameUpgradeData>, b: seq<InputNameUpgradeData>,
                                         g: InputNameUpgradeData -> seq<Edit>)
    ensures EditsOf(a + b, g) == EditsOf(a, g) + EditsOf(b, g)
    decreases |b|
  {
    if b == [] {
      assert a + b == a;
    } else {
      var b', last := b[..|b| - 1], b[|b| - 1];
      assert (a + b)[..|a + b| - 1] == a + b';
      assert (a + b)[|a + b| - 1] == last;
      EditsOfConcat(a, b', g);
    }
  }

  /** The edits of a table are the edits of its parts, in order: entries are
      visited independently and one after the other. */
  lemma EditsConcat(kind: ResourceKind, a: seq<InputNameUpgradeData>, b: seq<InputNameUpgradeData>,
                    res: ResolvedResource, f: Finders)
    ensures Edits(kind, a + b, res, f) == Edits(kind, a, res, f) + Edits(kind, b, res, f)
  {
    EditsOfConcat(a, b, entry => EntryEdits(kind, entry, res, f));
  }

  /** Each entry contributes remove/insertRight pairs at matching offsets. */
  lemma {:induction false} ReplacementsWellPaired(start: nat, offsets: seq<nat>, width: nat, newName: string)
    ensures WellPaired(Replacements(start, offsets, width, newName))
    decreases |offsets|
  {
    if offsets != [] {
      var init := offsets[..|offsets| - 1];
      var o := offsets[|offsets| - 1];
      ReplacementsWellPaired(start, init, width, newName);
      var pair := [Remove(start + o, width), InsertRight(start + o, newName)];
      assert pair[2..] == [];
      WellPairedConcat(Replacements(start, init, width, newName), pair);
    }
  }

  /** Whatever the finders return, a visit records only remove/insertRight
      pairs at matching offsets. */
  lemma {:induction false} EditsWellPaired(kind: ResourceKind, data: seq<InputNameUpgradeData>, res: ResolvedResource, f: Finders)
    ensures WellPaired(Edits(kind, data, res, f))
    decreases |data|
  {
    if data != [] {
      EditsWellPaired(kind, data[..|data| - 1], res, f);
      var entry := data[|data| - 1];
      if kind == Stylesheet {
        ReplacementsWellPaired(res.start, f.allSubstringIndices(res.content, AttributeSelector(entry.replace)),
                               |AttributeSelector(entry.replace)|, AttributeSelector(entry.replaceWith));
      } else {
        ReplacementsWellPaired(res.start, TemplateOffsets(entry, res.content, f), |entry.replace|, entry.replaceWith);
      }
      WellPairedConcat(Edits(kind, data[..|data| - 1], res, f), EntryEdits(kind, entry, res, f));
      assert Edits(kind, data, res, f) == Edits(kind, data[..|data| - 1], res, f) + EntryEdits(kind, entry, res, f);
    }
  }

  /** `text` holds `s` at each of `offsets`. */
  ghost predicate OccursAt(text: string, s: string, offsets: seq<nat>)
  {
    forall k :: 0 <= k < |offsets| ==> offsets[k] + |s| <= |text| && text[offsets[k]..offsets[k] + |s|] == s
  }

  /** The resource's text sits at its start offset inside `file`. */
  ghost predicate Embedded(file: string, res: ResolvedResource)
  {
    res.start + |res.content| <= |file| && file[res.start..res.start + |res.content|] == res.content
  }

  /** A removal among the replacements is the one recorded for its pair. */
  lemma RemovalAt(start: nat, offsets: seq<nat>, width: nat, newName: string, k: nat)
    requires k < |Replacements(start, offsets, width, newName)|
    requires Replacements(start, offsets, width, newName)[k].Remove?
    ensures k % 2 == 0 && k / 2 < |offsets|
    ensures Replacements(start, offsets, width, newName)[k] == Remove(start + offsets[k / 2], width)
  {
    var j := k / 2;
    assert k == 2 * j || k == 2 * j + 1;
    ReplacementsAt(start, offsets, width, newName, j);
  }

  /** A span inside the resource is the same span of the file, shifted by the
      resource's start. */
  lemma EmbeddedSlice(file: string, res: ResolvedResource, o: nat, n: nat)
    requires Embedded(file, res)
    requires o + n <= |res.content|
    ensures file[res.start + o..res.start + o + n] == res.content[o..o + n]
  {
    var inFile, inContent := file[res.start + o..res.start + o + n], res.content[o..o + n];
    forall i | 0 <= i < n
      ensures inFile[i] == inContent[i]
    {
      assert file[res.start..res.start + |res.content|][o + i] == res.content[o + i];
    }
  }

  /** A single removal among the replacements covers `s` in the file. */
  lemma RemovalCovers(file: string, res: ResolvedResource, s: string, offsets: seq<nat>, newName: string, k: nat)
    requires Embedded(file, res)
    requires OccursAt(res.content, s, offsets)
    requires k < |Replacements(res.start, offsets, |s|, newName)|
    requires Replacements(res.start, offsets, |s|, newName)[k].Remove?
    ensures var e := Replacements(res.start, offsets, |s|, newName)[k];
      e.offset + e.width <= |file| && file[e.offset..e.offset + e.width] == s
  {
    RemovalAt(res.start, offsets, |s|, newName, k);
    var o := offsets[k / 2];
    EmbeddedSlice(file, res, o, |s|);
  }

  /** Translating finder offsets by the resource's start makes every removal
      cover exactly the old text inside the whole file. */
  lemma AbsoluteRemovalsCover(file: string, res: ResolvedResource, s: string, offsets: seq<nat>, newName: string)
    requires Embedded(file, res)
    requires OccursAt(res.content, s, offsets)
    ensures var r := Replacements(res.start, offsets, |s|, newName);
      forall k :: 0 <= k < |r| && r[k].Remove? ==>
        r[k].offset + r[k].width <= |file| && file[r[k].offset..r[k].offset + r[k].width] == s
  {
    var r := Replacements(res.start, offsets, |s|, newName);
    forall k | 0 <= k < |r| && r[k].Remove?
      ensures r[k].offset + r[k].width <= |file| && file[r[k].offset..r[k].offset + r[k].width] == s
    {
      RemovalCovers(file, res, s, offsets, newName, k);
    }
  }

  /** If the substring finder reports true occurrences of `[replace]`, every
      stylesheet removal covers exactly `[replace]` in the whole file. */
  lemma StylesheetRemovesSelector(file: string, entry: InputNameUpgradeData, res: ResolvedResource, f: Finders)
    requires Embedded(file, res)
    requires OccursAt(res.content, AttributeSelector(entry.replace),
                      f.allSubstringIndices(res.content, AttributeSelector(entry.replace)))
    ensures var r := StylesheetEntryEdits(entry, res, f);
      forall k :: 0 <= k < |r| && r[k].Remove? ==>
        r[k].offset + r[k].width <= |file| &&
        file[r[k].offset..r[k].offset + r[k].width] == AttributeSelector(entry.replace)
  {
    var selector := AttributeSelector(entry.replace);
    var offsets := f.allSubstringIndices(res.content, selector);
    assert StylesheetEntryEdits(entry, res, f)
        == Replacements(res.start, offsets, |selector|, AttributeSelector(entry.replaceWith));
    AbsoluteRemovalsCover(file, res, selector, offsets, AttributeSelector(entry.replaceWith));
  }

  /** If the template finders report the offsets of the name token, every
      template removal covers exactly the old name in the whole file. */
  lemma TemplateRemovesName(file: string, entry: InputNameUpgradeData, res: ResolvedResource, f: Finders)
    requires Embedded(file, res)
    requires OccursAt(res.content, entry.replace, TemplateOffsets(entry, res.content, f))
    ensures var r := TemplateEntryEdits(entry, res, f);
      forall k :: 0 <= k < |r| && r[k].Remove? ==>
        r[k].offset + r[k].width <= |file| &&
        file[r[k].offset..r[k].offset + r[k].width] == entry.replace
  {
    var offsets := TemplateOffsets(entry, res.content, f);
    assert TemplateEntryEdits(entry, res, f) == Replacements(res.start, offsets, |entry.replace|, entry.replaceWith);
    AbsoluteRemovalsCover(file, res, entry.replace, offsets, entry.replaceWith);
  }

  /** The rename rule: an immutable rename table, the flag derived from it, and
      the per-file update recorders it writes to. */
  class InputNamesRule {
    /** The rename entries, handled in this order on every resource. */
    const data: seq<InputNameUpgradeData>
    /** Holds exactly when the rename table has at least one entry. */
    const ruleEnabled: bool
    const finders: Finders
    var recorders: map<string, seq<Edit>>

    ghost predicate Valid()
      reads this
    {
      ruleEnabled == (data != [])
    }

    constructor (data: seq<InputNameUpgradeData>, finders: Finders)
      ensures Valid()
      ensures this.data == data && this.finders == finders
      ensures ruleEnabled <==> |data| != 0
      ensures recorders == map[]
    {
      this.data := data;
      this.finders := finders;
      ruleEnabled := |data| != 0;
      recorders := map[];
    }

    /** Records the replacement of `width` characters at `start` by `newName`
        on the recorder of `filePath`. */
    method ReplaceInputName(filePath: string, start: nat, width: nat, newName: string)
      requires Valid()
      modifies this
      ensures Valid()
      ensures recorders == Appended(old(recorders), filePath, [Remove(start, width), InsertRight(start, newName)])
    {
      recorders := recorders[filePath := Log(recorders, filePath) + [Remove(start, width), InsertRight(start, newName)]];
    }

    /** Maps each relative offset to `start + offset` and replaces there, in
        order (the `map`/`forEach` chain both visit methods end with). */
    method ReplaceAtOffsets(filePath: string, start: nat, offsets: seq<nat>, width: nat, newName: string)
      requires Valid()
      modifies this
      ensures Valid()
      ensures recorders == Appended(old(recorders), filePath, Replacements(start, offsets, width, newName))
    {
      var j := 0;
      while j < |offsets|
        invariant 0 <= j <= |offsets|
        invariant Valid()
        invariant recorders == Appended(old(recorders), filePath, Replacements(start, offsets[..j], width, newName))
      {
        ReplaceInputName(filePath, start + offsets[j], width, newName);
        ReplacementsPrefix(start, offsets, width, newName, j);
        AppendedTwice(old(recorders), filePath, Replacements(start, offsets[..j], width, newName),
                      [Remove(start + offsets[j], width), InsertRight(start + offsets[j], newName)]);
        j := j + 1;
      }
      assert offsets[..j] == offsets;
    }

    /** The callback `visitStylesheet` runs for one table entry. */
    method RenameInStylesheet(stylesheet: ResolvedResource, name: InputNameUpgradeData)
      requires Valid()
      modifies this
      ensures Valid()
      ensures recorders == Appended(old(recorders), stylesheet.filePath, StylesheetEntryEdits(name, stylesheet, finders))
    {
      var currentSelector := AttributeSelector(name.replace);
      var updatedSelector := AttributeSelector(name.replaceWith);
      var offsets := finders.allSubstringIndices(stylesheet.content, currentSelector);
      ReplaceAtOffsets(stylesheet.filePath, stylesheet.start, offsets, |currentSelector|, updatedSelector);
    }

    method VisitStylesheet(stylesheet: ResolvedResource)
      requires Valid()
      modifies this
      ensures Valid()
      ensures recorders == Appended(old(recorders), stylesheet.filePath, Edits(Stylesheet, data, stylesheet, finders))
      ensures !ruleEnabled ==> recorders == old(recorders)
      ensures forall path :: WellPaired(Log(old(recorders), path)) ==> WellPaired(Log(recorders, path))
    {
      var i := 0;
      while i < |data|
        invariant 0 <= i <= |data|
        invariant Valid()
        invariant recorders == Appended(old(recorders), stylesheet.filePath, Edits(Stylesheet, data[..i], stylesheet, finders))
      {
        RenameInStylesheet(stylesheet, data[i]);
        EditsPrefix(Stylesheet, data, i, stylesheet, finders);
        AppendedTwice(old(recorders), stylesheet.filePath, Edits(Stylesheet, data[..i], stylesheet, finders),
                      EntryEdits(Stylesheet, data[i], stylesheet, finders));
        i := i + 1;
      }
      assert data[..i] == data;
      EditsWellPaired(Stylesheet, data, stylesheet, finders);
      forall path | WellPaired(Log(old(recorders), path))
        ensures WellPaired(Log(recorders, path))
      {
        AppendedLog(old(recorders), stylesheet.filePath, Edits(Stylesheet, data, stylesheet, finders), path);
        if path == stylesheet.filePath {
          WellPairedConcat(Log(old(recorders), path), Edits(Stylesheet, data, stylesheet, finders));
        }
      }
    }

    /** The callback `visitTemplate` runs for one table entry: it gathers the
        relative offsets of the configured finders, then replaces at each. */
    method RenameInTemplate(template: ResolvedResource, name: InputNameUpgradeData)
      requires Valid()
      modifies this
      ensures Valid()
      ensures recorders == Appended(old(recorders), template.filePath, TemplateEntryEdits(name, template, finders))
    {
      var whitelist := name.whitelist;
      var relativeOffsets: seq<nat> := [];
      if whitelist.attributes.Some? {
        relativeOffsets := relativeOffsets
          + finders.inputsOnElementWithAttr(template.content, name.replace, whitelist.attributes.value);
      }
      assert relativeOffsets == AttributeOffsets(name, template.content, finders);
      if whitelist.elements.Some? {
        relativeOffsets := relativeOffsets
          + finders.inputsOnElementWithTag(template.content, name.replace, whitelist.elements.value);
      }
      assert relativeOffsets == TemplateOffsets(name, template.content, finders);
      ReplaceAtOffsets(template.filePath, template.start, relativeOffsets, |name.replace|, name.replaceWith);
    }

    method VisitTemplate(template: ResolvedResource)
      requires Valid()
      modifies this
      ensures Valid()
      ensures recorders == Appended(old(recorders), template.filePath, Edits(Template, data, template, finders))
      ensures !ruleEnabled ==> recorders == old(recorders)
      ensures forall path :: WellPaired(Log(old(recorders), path)) ==> WellPaired(Log(recorders, path))
    {
      var i := 0;
      while i < |data|
        invariant 0 <= i <= |data|
        invariant Valid()
        invariant recorders == Appended(old(recorders), template.filePath, Edits(Template, data[..i], template, finders))
      {
        RenameInTemplate(template, data[i]);
        EditsPrefix(Template, data, i, template, finders);
        AppendedTwice(old(recorders), template.filePath, Edits(Template, data[..i], template, finders),
                      EntryEdits(Template, data[i], template, finders));
        i := i + 1;
      }
      assert data[..i] == data;
      EditsWellPaired(Template, data, template, finders);
      forall path | WellPaired(Log(old(recorders), path))
        ensures WellPaired(Log(recorders, path))
      {
        AppendedLog(old(recorders), template.filePath, Edits(Template, data, template, finders), path);
        if path == template.filePath {
          WellPairedConcat(Log(old(recorders), path), Edits(Template, data, template, finders));
        }
      }
    }
  }
}
