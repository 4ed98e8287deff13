/** What the completion of a new page's frontmatter does, and that doing it twice changes nothing. */
module Completion {
  import opened Agent
  import opened Seqs
  import opened Text
  import opened Wrappers
  import Frontmatter

  const FENCE := "\n---"

  lemma FenceAt(s: string, k: nat)
    ensures OccursAt(s, FENCE, k) <==>
              k + 3 < |s| && s[k] == '\n' && s[k + 1] == '-' && s[k + 2] == '-' && s[k + 3] == '-'
  {
    assert k + 3 < |s| ==> s[k..k + 4] == [s[k], s[k + 1], s[k + 2], s[k + 3]];
  }

  /** A line put in front of the closing fence leaves it the first one. */
  lemma FenceMoves(fm: string, line: string, rest: string)
    requires FindSub(fm + rest, FENCE) == Some(|fm|) && '\n' !in line && line != "" && line[0] != '-'
    ensures FindSub(fm + ("\n" + line) + rest, FENCE) == Some(|fm + ("\n" + line)|)
  {
    var before, more, n, m := fm + rest, fm + ("\n" + line) + rest, |fm|, |line|;
    FenceAt(before, n);
    FenceAt(more, n + 1 + m);
    assert more[n] == '\n' && more[n + 1] == line[0];
    forall k: nat | k < n + 1 + m
      ensures !OccursAt(more, FENCE, k)
    {
      if k <= n {
        assert k == n || !OccursAt(before, FENCE, k);
        NoFenceBefore(fm, line, rest, k);
      } else {
        FenceAt(more, k);
        assert more[k] == line[k - n - 1] && line[k - n - 1] in line;
      }
    }
  }

  lemma NoFenceBefore(fm: string, line: string, rest: string, k: nat)
    requires line != "" && line[0] != '-' && OccursAt(fm + rest, FENCE, |fm|)
    requires k == |fm| || (k < |fm| && !OccursAt(fm + rest, FENCE, k))
    ensures !OccursAt(fm + ("\n" + line) + rest, FENCE, k)
  {
    FenceAt(fm + rest, |fm|);
    FenceAt(fm + rest, k);
    FenceAt(fm + ("\n" + line) + rest, k);
  }

  lemma AddLine(fm: string, key: string, value: string, rest: string)
    requires FindSub(fm + rest, FENCE) == Some(|fm|)
    requires '\n' !in key && '\n' !in value && key != "" && key[0] != '-'
    ensures FindSub(fm + ("\n" + key + value) + rest, FENCE) == Some(|fm + ("\n" + key + value)|)
  {
    AppendAssociates("\n", key, value);
    FenceMoves(fm, key + value, rest);
  }

  lemma ThreeMissing(fm: string, a: string, b: string, c: string, k1: string, k2: string, k3: string,
                     id: string, now: string, rest: string)
    requires FindSub(fm + rest, FENCE) == Some(|fm|) && '\n' !in id && '\n' !in now
    requires '\n' !in k1 && '\n' !in k2 && '\n' !in k3 && k1 != "" && k2 != "" && k3 != ""
    requires k1[0] != '-' && k2[0] != '-' && k3[0] != '-'
    requires (a == "" || a == "\n" + k1 + id) && (b == "" || b == "\n" + k2 + now) && (c == "" || c == "\n" + k3 + now)
    ensures FindSub(fm + (a + b + c) + rest, FENCE) == Some(|fm + (a + b + c)|)
  {
    OneMissing(fm, a, k1, id, rest);
    OneMissing(fm + a, b, k2, now, rest);
    OneMissing(fm + a + b, c, k3, now, rest);
    AppendAssociates(fm, a, b);
    AppendAssociates(fm, a + b, c);
  }

  lemma LinesOfFields(id: string, now: string)
    ensures "\nid: " + id == "\n" + "id: " + id
    ensures "\ncreated_at: " + now == "\n" + "created_at: " + now
    ensures "\nupdated_at: " + now == "\n" + "updated_at: " + now
  {
  }

  /** Adding the missing lines keeps the closing fence where it was, behind them. */
  lemma MissingKeepsFence(fm: string, id: string, now: string, rest: string)
    requires FindSub(fm + rest, FENCE) == Some(|fm|) && '\n' !in id && '\n' !in now
    ensures FindSub(fm + Missing(fm, id, now) + rest, FENCE) == Some(|fm + Missing(fm, id, now)|)
  {
    var hasId, hasCreated := FindSub(fm, "id:").Some?, FindSub(fm, "created_at:").Some?;
    var hasUpdated := FindSub(fm, "updated_at:").Some?;
    LinesOfFields(id, now);
    ThreeMissing(fm, if hasId then "" else "\nid: " + id, if hasCreated then "" else "\ncreated_at: " + now,
                 if hasUpdated then "" else "\nupdated_at: " + now, "id: ", "created_at: ", "updated_at: ", id, now, rest);
  }

  lemma OneMissing(fm: string, added: string, key: string, value: string, rest: string)
    requires FindSub(fm + rest, FENCE) == Some(|fm|) && (added == "" || added == "\n" + key + value)
    requires '\n' !in key && '\n' !in value && key != "" && key[0] != '-'
    ensures FindSub(fm + added + rest, FENCE) == Some(|fm + added|)
  {
    if added == "" {
      AppendEmpty(fm);
    } else {
      AddLine(fm, key, value, rest);
    }
  }

  /** The frontmatter and what follows it, an empty one for a page without. */
  function Parts(content: string): Option<(string, string)> {
    var t := TrimStart(content);
    if StartsWith(t, "---") then Frontmatter.Cut(t, "---", FENCE) else Some(("", FENCE + "\n" + content))
  }

  lemma PartsAreFenced(content: string)
    requires Parts(content).Some?
    ensures var (fm, rest) := Parts(content).value; FindSub(fm + rest, FENCE) == Some(|fm|)
  {
    var t := TrimStart(content);
    if StartsWith(t, "---") {
      Frontmatter.PartsOfCut(t, "---", FENCE);
    } else {
      var rest := FENCE + "\n" + content;
      assert "" + rest == rest && rest[..4] == FENCE;
      assert OccursAt(rest, FENCE, 0);
    }
  }

  lemma FencedParts(fm: string, rest: string)
    requires FindSub(fm + rest, FENCE) == Some(|fm|)
    ensures Parts("---" + (fm + rest)) == Some((fm, rest))
  {
    var s := "---" + (fm + rest);
    assert s[0] == '-' && s[..3] == "---";
    TrimStartOver("", s);
    assert "" + s == s;
    Frontmatter.CutOfParts("---", FENCE, fm, rest);
  }

  lemma NothingFoundInNothing(p: string)
    requires p != ""
    ensures FindSub("", p).None?
  {
  }

  lemma NewFrontmatter(id: string, now: string, content: string)
    ensures "---\nid: " + id + "\ncreated_at: " + now + "\nupdated_at: " + now + "\n---\n" + content ==
              "---" + ("" + ("\nid: " + id + ("\ncreated_at: " + now) + ("\nupdated_at: " + now))
                       + ("\n---" + "\n" + content))
  {
  }

  /** A completed page holds its old frontmatter, then the missing lines, then what followed. */
  lemma CompletedByParts(id: string, now: string, content: string)
    ensures Parts(content).None? ==> Completed(id, now, content) == content
    ensures Parts(content).Some? ==>
              var (fm, rest) := Parts(content).value;
              Completed(id, now, content) == "---" + (fm + Missing(fm, id, now) + rest)
  {
    if !StartsWith(TrimStart(content), "---") {
      NothingFoundInNothing("id:");
      NothingFoundInNothing("created_at:");
      NothingFoundInNothing("updated_at:");
      NewFrontmatter(id, now, content);
    }
  }

  lemma CompletedParts(id: string, now: string, content: string)
    requires '\n' !in id && '\n' !in now && Parts(content).Some?
    ensures var (fm, rest) := Parts(content).value;
            Parts(Completed(id, now, content)) == Some((fm + Missing(fm, id, now), rest))
  {
    var (fm, rest) := Parts(content).value;
    CompletedByParts(id, now, content);
    PartsAreFenced(content);
    MissingKeepsFence(fm, id, now, rest);
    FencedParts(fm + Missing(fm, id, now), rest);
  }

  /** The line that fills in a field. */
  function FieldLine(key: string, value: string): string {
    "\n" + key + " " + value
  }

  function AddedFor(fm: string, key: string, value: string): string
    requires key != ""
  {
    if FindSub(fm, key).Some? then "" else FieldLine(key, value)
  }

  /** The field is mentioned, and with the value if it was not before. */
  predicate IsFilledIn(fm: string, filled: string, key: string, value: string)
    requires key != ""
  {
    FindSub(filled, key).Some? && (FindSub(fm, key).None? ==> FindSub(filled, FieldLine(key, value)).Some?)
  }

  lemma OneMentioned(fm: string, before: string, after: string, key: string, value: string)
    requires key != ""
    ensures IsFilledIn(fm, fm + (before + AddedFor(fm, key, value) + after), key, value)
  {
    if FindSub(fm, key).Some? {
      FoundInWhole("", fm, before + "" + after, key);
      assert "" + fm == fm;
    } else {
      var line := FieldLine(key, value);
      assert fm + (before + line + after) == fm + before + line + after;
      FindsItself(fm + before, line, after);
      FindsItself("\n", key, " " + value);
      assert line == "\n" + key + (" " + value);
      FoundInWhole(fm + before, line, after, key);
    }
  }

  lemma ThreeParts(a: string, b: string, c: string)
    ensures a + b + c == "" + a + (b + c) && a + b + c == a + b + c + ""
  {
  }

  lemma ThreeFilledIn(fm: string, k1: string, k2: string, k3: string, id: string, now: string)
    requires k1 != "" && k2 != "" && k3 != ""
    ensures var filled := fm + (AddedFor(fm, k1, id) + AddedFor(fm, k2, now) + AddedFor(fm, k3, now));
            IsFilledIn(fm, filled, k1, id) && IsFilledIn(fm, filled, k2, now) && IsFilledIn(fm, filled, k3, now)
  {
    var a, b, c := AddedFor(fm, k1, id), AddedFor(fm, k2, now), AddedFor(fm, k3, now);
    ThreeParts(a, b, c);
    OneMentioned(fm, "", b + c, k1, id);
    OneMentioned(fm, a, c, k2, now);
    OneMentioned(fm, a + b, "", k3, now);
  }

  lemma MissingIsAdded(fm: string, id: string, now: string)
    ensures Missing(fm, id, now) ==
              AddedFor(fm, "id:", id) + AddedFor(fm, "created_at:", now) + AddedFor(fm, "updated_at:", now)
  {
    assert "\nid: " + id == FieldLine("id:", id);
    assert "\ncreated_at: " + now == FieldLine("created_at:", now);
    assert "\nupdated_at: " + now == FieldLine("updated_at:", now);
  }

  /** Every field is mentioned afterwards, and one that was not before has the given value. */
  lemma MissingIsFilledIn(fm: string, id: string, now: string)
    ensures var filled := fm + Missing(fm, id, now);
            && IsFilledIn(fm, filled, "id:", id) && IsFilledIn(fm, filled, "created_at:", now)
            && IsFilledIn(fm, filled, "updated_at:", now)
  {
    MissingIsAdded(fm, id, now);
    ThreeFilledIn(fm, "id:", "created_at:", "updated_at:", id, now);
  }

  /** The completion leaves every page it completed alone, whatever id and time it draws then. */
  lemma CompletionIsIdempotent(id: string, now: string, content: string, id': string, now': string)
    requires '\n' !in id && '\n' !in now
    ensures Completed(id', now', Completed(id, now, content)) == Completed(id, now, content)
  {
    var once := Completed(id, now, content);
    CompletedByParts(id, now, content);
    CompletedByParts(id', now', once);
    if Parts(content).Some? {
      var (fm, rest) := Parts(content).value;
      CompletedParts(id, now, content);
      MissingIsFilledIn(fm, id, now);
      NothingIsMissing(fm + Missing(fm, id, now), id', now', rest);
    } else {
      assert once == content;
    }
  }

  lemma NothingIsMissing(fm: string, id: string, now: string, rest: string)
    requires FindSub(fm, "id:").Some? && FindSub(fm, "created_at:").Some? && FindSub(fm, "updated_at:").Some?
    ensures Missing(fm, id, now) == "" && fm + Missing(fm, id, now) + rest == fm + rest
  {
  }

  /** It takes nothing away and adds what is missing: in front of the closing fence, behind all there
      was, come the fields that were not mentioned, with the id and the time drawn. */
  lemma CompletionFillsIn(id: string, now: string, content: string)
    requires '\n' !in id && '\n' !in now && Parts(content).Some?
    ensures var (fm, rest) := Parts(content).value;
            var done := Parts(Completed(id, now, content));
            && done.Some? && done.value.1 == rest && fm <= done.value.0
            && IsFilledIn(fm, done.value.0, "id:", id) && IsFilledIn(fm, done.value.0, "created_at:", now)
            && IsFilledIn(fm, done.value.0, "updated_at:", now)
  {
    CompletedParts(id, now, content);
    MissingIsFilledIn(Parts(content).value.0, id, now);
  }
}
