/**
 * The research notebook: an ordered list of notes and the id of the selected one, with
 * create, delete, update, tag entry and the AI-assist action that appends a section of
 * research avenues to the selected note.
 *
 * The list itself belongs to the application and is handed down with its setter; the
 * panel below holds it as a field, since every handler replaces it wholesale.
 */
module ResearchNotes {
  import opened Types
  import opened JsText
  import GeminiService

  const UntitledTitle := "Untitled Research"
  const NewTopic := "New Research Topic"
  const NewFirstLine := "#" + (" " + NewTopic)
  const NewContent := NewFirstLine + "\n\nStart typing..."
  const AiTag := "ai-enhanced"
  const AvenuesHeader := "## AI Generated Research Avenues"
  const Checkbox := "- [ ] "

  /** The note createNote adds, for the id and timestamp it is given. */
  function NewNote(id: string, createdAt: string): ResearchNote
  {
    ResearchNote(id, UntitledTitle, NewContent, ["draft"], createdAt, None)
  }

  /** The index of the first note carrying `id`, or |notes| when there is none. */
  function FirstWithId(notes: seq<ResearchNote>, id: string): (k: nat)
    ensures k <= |notes|
    ensures forall j :: 0 <= j < k ==> notes[j].id != id
    ensures k < |notes| ==> notes[k].id == id
  {
    if notes == [] || notes[0].id == id then 0
    else
      var k := FirstWithId(notes[1..], id);
      assert forall j :: 1 <= j < k + 1 ==> notes[j] == notes[1..][j - 1];
      k + 1
  }

  /** `notes.find(n => n.id === selected)`: the first note carrying the selected id, if any. */
  function Find(notes: seq<ResearchNote>, selected: Option<string>): (r: Option<ResearchNote>)
    ensures r.Some? <==> selected.Some? && exists i :: 0 <= i < |notes| && notes[i].id == selected.value
    ensures r.Some? ==> r.value.id == selected.value && r.value in notes
    ensures r.Some? ==> exists i :: 0 <= i < |notes| && notes[i] == r.value
                                    && forall j :: 0 <= j < i ==> notes[j].id != selected.value
  {
    if selected.None? then None
    else
      var k := FirstWithId(notes, selected.value);
      if k == |notes| then None else Some(notes[k])
  }

  /** `notes.filter(n => n.id !== id)`. */
  function Removed(notes: seq<ResearchNote>, id: string): (r: seq<ResearchNote>)
    ensures |r| <= |notes|
    ensures forall n :: n in r <==> n in notes && n.id != id
  {
    if notes == [] then []
    else (if notes[0].id != id then [notes[0]] else []) + Removed(notes[1..], id)
  }

  /** The filter keeps the order of the notes it keeps. */
  lemma {:induction false} RemovedAppend(a: seq<ResearchNote>, b: seq<ResearchNote>, id: string)
    ensures Removed(a + b, id) == Removed(a, id) + Removed(b, id)
  {
    if a == [] {
      assert a + b == b;
    } else {
      assert (a + b)[1..] == a[1..] + b;
      RemovedAppend(a[1..], b, id);
    }
  }

  /** Deleting an id that no note carries changes nothing. */
  lemma {:induction false} RemovedAbsent(notes: seq<ResearchNote>, id: string)
    requires forall i :: 0 <= i < |notes| ==> notes[i].id != id
    ensures Removed(notes, id) == notes
  {
    if notes != [] {
      RemovedAbsent(notes[1..], id);
      assert notes == [notes[0]] + notes[1..];
    }
  }

  /** The fields a partial update may carry. */
  datatype Patch = Patch(title: Option<string>, content: Option<string>, tags: Option<seq<string>>)

  /** `{ ...note, ...patch }`: the supplied fields replaced, every other field kept. */
  function Apply(note: ResearchNote, patch: Patch): (r: ResearchNote)
    ensures r.id == note.id && r.createdAt == note.createdAt && r.aiAnalysis == note.aiAnalysis
    ensures r.title == (if patch.title.Some? then patch.title.value else note.title)
    ensures r.content == (if patch.content.Some? then patch.content.value else note.content)
    ensures r.tags == (if patch.tags.Some? then patch.tags.value else note.tags)
  {
    var n1 := if patch.title.Some? then note.(title := patch.title.value) else note;
    var n2 := if patch.content.Some? then n1.(content := patch.content.value) else n1;
    if patch.tags.Some? then n2.(tags := patch.tags.value) else n2
  }

  /** An update with no fields leaves a note as it is. */
  lemma EmptyPatchKeeps(note: ResearchNote)
    ensures Apply(note, Patch(None, None, None)) == note
  {
  }

  /** `notes.map(n => n.id === id ? { ...n, ...patch } : n)`. */
  function Patched(notes: seq<ResearchNote>, id: string, patch: Patch): (r: seq<ResearchNote>)
    ensures |r| == |notes|
    ensures forall i :: 0 <= i < |r| ==> r[i] == (if notes[i].id == id then Apply(notes[i], patch) else notes[i])
  {
    if notes == [] then []
    else [if notes[0].id == id then Apply(notes[0], patch) else notes[0]] + Patched(notes[1..], id, patch)
  }

  /** An update keeps every note's id, so the notes can still be found by the ids they had. */
  lemma PatchedKeepsIds(notes: seq<ResearchNote>, id: string, patch: Patch, selected: Option<string>)
    ensures Find(Patched(notes, id, patch), selected).Some? <==> Find(notes, selected).Some?
  {
    var r := Patched(notes, id, patch);
    assert forall i :: 0 <= i < |notes| ==> r[i].id == notes[i].id;
  }

  /** The tag list after Enter in the tag field: the trimmed input appended when new and not blank. */
  function WithTag(tags: seq<string>, input: string): (r: seq<string>)
    ensures Trim(input) != "" && Trim(input) !in tags ==> r == tags + [Trim(input)]
    ensures Trim(input) == "" || Trim(input) in tags ==> r == tags
    ensures Trim(input) in r <==> Trim(input) != "" || Trim(input) in tags
  {
    var tag := Trim(input);
    if tag != "" && tag !in tags then tags + [tag] else tags
  }

  /** Entering the same tag twice is the same as entering it once. */
  lemma WithTagIdempotent(tags: seq<string>, input: string)
    ensures WithTag(WithTag(tags, input), input) == WithTag(tags, input)
  {
  }

  /** Tag entry never introduces a duplicate. */
  lemma WithTagKeepsDistinct(tags: seq<string>, input: string)
    requires Distinct(tags)
    ensures Distinct(WithTag(tags, input))
  {
  }

  /** `content.split('\n')[0]`: the content up to its first line break. */
  function FirstLine(content: string): (r: string)
    ensures '\n' !in r && |r| <= |content| && r == content[..|r|]
    ensures |r| == |content| || content[|r|] == '\n'
  {
    SplitFirst(content, '\n');
    Split(content, '\n')[0]
  }

  /** The topic sent to the AI: the title, or for an untitled note the first line without its first '#', trimmed. */
  function Topic(note: ResearchNote): (r: string)
    ensures note.title != UntitledTitle ==> r == note.title
    ensures note.title == UntitledTitle ==> r == Trim(RemoveFirst(FirstLine(note.content), '#')) && '\n' !in r
  {
    if note.title == UntitledTitle then
      var line := FirstLine(note.content);
      var r := Trim(RemoveFirst(line, '#'));
      TrimKeeps(RemoveFirst(line, '#'));
      assert '\n' !in RemoveFirst(line, '#') by {
        RemoveFirstCount(line, '#');
        assert multiset(RemoveFirst(line, '#'))['\n'] == 0;
      }
      r
    else note.title
  }

  lemma TrimAfterSpace(t: string)
    requires t != [] && !IsWhitespace(t[0]) && !IsWhitespace(t[|t| - 1])
    ensures Trim(" " + t) == t
  {
    var none: string := [];
    assert " " + t + none == " " + t;
    TrimPadded(" ", t, none);
  }

  lemma FirstLineBeforeBreak(line: string, tail: string)
    requires '\n' !in line && (tail == [] || tail[0] == '\n')
    ensures FirstLine(line + tail) == line
  {
    SplitPrefix(line, '\n', tail);
    assert Split(tail, '\n')[0] == "";
    assert line + "" == line;
  }

  /**
   * An untitled note whose content opens with a markdown heading "# <t>" asks about t
   * (t on one line, without white space at its ends).
   */
  lemma HeadingTopic(note: ResearchNote, t: string, tail: string)
    requires note.title == UntitledTitle
    requires note.content == "#" + (" " + t) + tail && (tail == [] || tail[0] == '\n')
    requires '\n' !in t && t != [] && !IsWhitespace(t[0]) && !IsWhitespace(t[|t| - 1])
    ensures Topic(note) == t
  {
    var line := "#" + (" " + t);
    assert '\n' !in line;
    FirstLineBeforeBreak(line, tail);
    assert RemoveFirst(line, '#') == " " + t;
    TrimAfterSpace(t);
  }

  /** A freshly created note asks about "New Research Topic". */
  lemma NewNoteTopic(id: string, createdAt: string)
    ensures Topic(NewNote(id, createdAt)) == NewTopic
  {
    assert '\n' !in NewTopic;
    HeadingTopic(NewNote(id, createdAt), NewTopic, "\n\nStart typing...");
  }

  /** One "- [ ] idea" line per idea, in order. */
  function Bullets(ideas: seq<string>): (r: seq<string>)
    ensures |r| == |ideas|
    ensures forall i :: 0 <= i < |r| ==> r[i] == Checkbox + ideas[i]
  {
    if ideas == [] then [] else [Checkbox + ideas[0]] + Bullets(ideas[1..])
  }

  /** The text appended by AI assist: a blank line, the header, then the idea lines. */
  function IdeasSection(ideas: seq<string>): string
  {
    "\n\n" + AvenuesHeader + "\n" + Join(Bullets(ideas), '\n')
  }

  /** The update the AI assist makes: the ideas section appended to the content, 'ai-enhanced' appended to the tags. */
  function AssistPatch(note: ResearchNote, ideas: seq<string>): (p: Patch)
    ensures Apply(note, p).content == note.content + IdeasSection(ideas)
    ensures Apply(note, p).tags == note.tags + [AiTag]
    ensures Apply(note, p).title == note.title && Apply(note, p).id == note.id
  {
    Patch(None, Some(note.content + IdeasSection(ideas)), Some(note.tags + [AiTag]))
  }

  lemma JoinHead(a: string, rest: seq<string>, sep: char)
    requires rest != []
    ensures Join([a] + rest, sep) == a + [sep] + Join(rest, sep)
  {
    assert ([a] + rest)[1..] == rest;
  }

  lemma JoinSection(header: string, lines: seq<string>)
    requires lines != []
    ensures Join(["", "", header] + lines, '\n') == "\n\n" + header + "\n" + Join(lines, '\n')
  {
    var parts := ["", "", header] + lines;
    JoinHead(header, lines, '\n');
    assert ["", header] + lines == [""] + ([header] + lines);
    JoinHead("", [header] + lines, '\n');
    assert parts == [""] + (["", header] + lines);
    JoinHead("", ["", header] + lines, '\n');
  }

  /** Two line breaks, a one-line header and a line break, followed by lines joined with line breaks, split back into those lines. */
  lemma SectionLines(header: string, lines: seq<string>)
    requires lines != [] && '\n' !in header
    requires forall i :: 0 <= i < |lines| ==> '\n' !in lines[i]
    ensures Split("\n\n" + header + "\n" + Join(lines, '\n'), '\n') == ["", "", header] + lines
  {
    var parts := ["", "", header] + lines;
    JoinSection(header, lines);
    forall i | 0 <= i < |parts|
      ensures '\n' !in parts[i]
    {
      if i >= 3 {
        assert parts[i] == lines[i - 3];
      }
    }
    SplitJoin(parts, '\n');
  }

  lemma HeaderIsOneLine()
    ensures '\n' !in AvenuesHeader && '\n' !in Checkbox
  {
  }

  /**
   * Read line by line, the appended section is two empty lines, the header and one checkbox
   * line per idea; with no ideas (an empty reply) it ends in an empty line instead.
   */
  lemma IdeasSectionLines(ideas: seq<string>)
    requires forall i :: 0 <= i < |ideas| ==> '\n' !in ideas[i]
    ensures ideas != [] ==> Split(IdeasSection(ideas), '\n') == ["", "", AvenuesHeader] + Bullets(ideas)
    ensures ideas == [] ==> Split(IdeasSection(ideas), '\n') == ["", "", AvenuesHeader, ""]
  {
    var b := Bullets(ideas);
    HeaderIsOneLine();
    if ideas == [] {
      SectionLines(AvenuesHeader, [""]);
      assert ["", "", AvenuesHeader] + [""] == ["", "", AvenuesHeader, ""];
    } else {
      forall i | 0 <= i < |b|
        ensures '\n' !in b[i]
      {
        assert b[i] == Checkbox + ideas[i];
      }
      SectionLines(AvenuesHeader, b);
    }
  }

  /** AI assist appends its tag without looking: a note already marked gets the tag twice. */
  lemma AiTagMayRepeat(tags: seq<string>)
    requires AiTag in tags
    ensures !Distinct(tags + [AiTag])
  {
    var i :| 0 <= i < |tags| && tags[i] == AiTag;
    assert (tags + [AiTag])[i] == (tags + [AiTag])[|tags|];
  }

  /** The notebook panel: the notes, the selected note's id, and the AI-in-progress flag. */
  class NotesPanel {
    var notes: seq<ResearchNote>
    var selectedId: Option<string>
    var isGenerating: bool

    /** The notebook as the application starts it: one seeded note, nothing selected. */
    constructor (createdAt: string)
      ensures notes == [ResearchNote("1", "Performance Optimization Strategy",
                                     "# Strategy\nWe need to look into React Compiler...",
                                     ["perf", "react"], createdAt, None)]
      ensures selectedId == None && !isGenerating
    {
      notes := [ResearchNote("1", "Performance Optimization Strategy",
                             "# Strategy\nWe need to look into React Compiler...",
                             ["perf", "react"], createdAt, None)];
      selectedId := None;
      isGenerating := false;
    }

    /** The note the editor shows. */
    function ActiveNote(): Option<ResearchNote>
      reads this
    {
      Find(notes, selectedId)
    }

    /** createNote: a new untitled note goes first and becomes the selected, active note. */
    method CreateNote(id: string, createdAt: string)
      modifies this
      ensures notes == [NewNote(id, createdAt)] + old(notes)
      ensures selectedId == Some(id) && isGenerating == old(isGenerating)
      ensures ActiveNote() == Some(NewNote(id, createdAt))
    {
      notes := [NewNote(id, createdAt)] + notes;
      selectedId := Some(id);
      assert notes[0].id == id;
    }

    /** deleteNote: every note with the id goes, the rest keep their order; the selection is cleared iff it was the id. */
    method DeleteNote(id: string)
      modifies this
      ensures notes == Removed(old(notes), id)
      ensures selectedId == (if old(selectedId) == Some(id) then None else old(selectedId))
      ensures isGenerating == old(isGenerating)
      ensures Find(notes, Some(id)).None?
    {
      notes := Removed(notes, id);
      if selectedId == Some(id) {
        selectedId := None;
      }
    }

    /** updateNote: the notes with the id get the supplied fields; the list keeps its length and order. */
    method UpdateNote(id: string, patch: Patch)
      modifies this
      ensures notes == Patched(old(notes), id, patch)
      ensures selectedId == old(selectedId) && isGenerating == old(isGenerating)
    {
      notes := Patched(notes, id, patch);
    }

    /** Clicking a note in the list selects it. */
    method Select(id: string)
      modifies this
      ensures selectedId == Some(id) && notes == old(notes) && isGenerating == old(isGenerating)
    {
      selectedId := Some(id);
    }

    /**
     * The tag field's key handler (only shown while a note is active): on Enter, a trimmed,
     * non-empty tag the active note lacks is appended to it and the field is cleared;
     * otherwise nothing changes. Returns the field's text afterwards.
     */
    method AddTagFromInput(isEnter: bool, input: string) returns (field: string)
      requires ActiveNote().Some?
      modifies this
      ensures var note := old(ActiveNote()).value;
              if isEnter && Trim(input) != "" && Trim(input) !in note.tags then
                notes == Patched(old(notes), note.id, Patch(None, None, Some(WithTag(note.tags, input)))) && field == ""
              else
                notes == old(notes) && field == input
      ensures selectedId == old(selectedId) && isGenerating == old(isGenerating)
    {
      var note := ActiveNote().value;
      var tag := Trim(input);
      if isEnter && tag != "" && tag !in note.tags {
        notes := Patched(notes, note.id, Patch(None, None, Some(note.tags + [tag])));
        field := "";
      } else {
        field := input;
      }
    }

    /**
     * handleAIAssist: without an active note nothing happens. Otherwise the ideas for the
     * note's topic are appended to its content under the header, and 'ai-enhanced' is added
     * to the end of its tags. Returns the topic asked about.
     */
    method AIAssist(apiKey: string, sdk: GeminiService.AiRequest -> GeminiService.Reply,
                    parse: string -> Option<seq<string>>) returns (topic: Option<string>)
      modifies this
      ensures old(ActiveNote()).None? ==> topic.None? && notes == old(notes) && isGenerating == old(isGenerating)
      ensures old(ActiveNote()).Some? ==>
                var note := old(ActiveNote()).value;
                topic == Some(Topic(note))
                && notes == Patched(old(notes), note.id,
                                    AssistPatch(note, GeminiService.GenerateResearchIdeas(apiKey, Topic(note), sdk, parse)))
                && !isGenerating
      ensures selectedId == old(selectedId)
    {
      var active := ActiveNote();
      if active.None? {
        return None;
      }
      var note := active.value;
      isGenerating := true;
      var t := Topic(note);
      var ideas := GeminiService.GenerateResearchIdeas(apiKey, t, sdk, parse);
      UpdateNote(note.id, AssistPatch(note, ideas));
      isGenerating := false;
      return Some(t);
    }
  }
}
