/** The list file the staging script hands to its staging command (`execute_cmd` in
    `parallel_stage.py`): a reader's file names, one per line. */
module ListFile {
  import opened Seqs

  /** What `execute_cmd` writes to its temporary file: every file name followed by a newline. */
  function FileListText(files: seq<string>): (r: string)
    ensures r == [] <==> files == []
    ensures r != [] ==> r[|r| - 1] == '\n'
  {
    if files == [] then [] else files[0] + "\n" + FileListText(files[1..])
  }

  /** One plus the length of each name. */
  function LineLengths(files: seq<string>): seq<int>
  {
    seq(|files|, i requires 0 <= i < |files| => |files[i]| + 1)
  }

  /** The text is as long as the names plus one newline each. */
  lemma {:induction false} FileListTextLength(files: seq<string>)
    ensures |FileListText(files)| == Sum(LineLengths(files))
  {
    if files != [] {
      FileListTextLength(files[1..]);
      assert LineLengths(files)[1..] == LineLengths(files[1..]);
    }
  }

  predicate NoNewline(s: string)
  {
    forall i :: 0 <= i < |s| ==> s[i] != '\n'
  }

  /** The lines of `text`, as the staging command reads its list file; a trailing piece
      without a newline counts as a line. */
  function Lines(text: string): (ls: seq<string>)
    ensures text != [] ==> ls != []
  {
    if text == [] then []
    else if text[0] == '\n' then [""] + Lines(text[1..])
    else Extend(text[0], Lines(text[1..]))
  }

  /** `c` put in front of the first line, which is created when there is none. */
  function Extend(c: char, ls: seq<string>): (r: seq<string>)
  {
    if ls == [] then [[c]] else [[c] + ls[0]] + ls[1..]
  }

  /** A name without a newline, then a newline, reads back as that name followed by the
      lines of what comes after. */
  lemma {:induction false} LinesLine(f: string, rest: string)
    requires NoNewline(f)
    ensures Lines(f + "\n" + rest) == [f] + Lines(rest)
    decreases |f|
  {
    var text := f + "\n" + rest;
    if f == [] {
      assert text[0] == '\n' && text[1..] == rest;
    } else {
      assert text[0] == f[0] != '\n' && text[1..] == f[1..] + "\n" + rest;
      assert NoNewline(f[1..]) by {
        forall i | 0 <= i < |f[1..]| ensures f[1..][i] != '\n' {
          assert f[1..][i] == f[i + 1];
        }
      }
      LinesLine(f[1..], rest);
      assert [f[0]] + f[1..] == f;
    }
  }

  /** Reading the list file back gives exactly the reader's files, in order, provided no
      file name contains a newline. */
  lemma {:induction false} FileListRoundTrip(files: seq<string>)
    requires forall i :: 0 <= i < |files| ==> NoNewline(files[i])
    ensures Lines(FileListText(files)) == files
  {
    if files != [] {
      assert FileListText(files) == files[0] + "\n" + FileListText(files[1..]);
      LinesLine(files[0], FileListText(files[1..]));
      FileListRoundTrip(files[1..]);
      assert [files[0]] + files[1..] == files;
    }
  }

  /** Conversely, every newline-terminated text is the list file of its own lines. */
  lemma {:induction false} LinesRoundTrip(text: string)
    requires text == [] || text[|text| - 1] == '\n'
    ensures FileListText(Lines(text)) == text
    decreases |text|
  {
    if text != [] {
      var rest := text[1..];
      assert rest == [] || rest[|rest| - 1] == '\n';
      LinesRoundTrip(rest);
      if text[0] == '\n' {
        assert FileListText([""] + Lines(rest)) == "" + "\n" + FileListText(Lines(rest)) by {
          assert ([""] + Lines(rest))[1..] == Lines(rest);
        }
        assert text == "\n" + rest;
      } else {
        var ls := Lines(rest);
        assert ls != [];
        assert FileListText(ls) == ls[0] + "\n" + FileListText(ls[1..]);
        var r := [[text[0]] + ls[0]] + ls[1..];
        assert FileListText(r) == [text[0]] + ls[0] + "\n" + FileListText(ls[1..]) by {
          assert r[0] == [text[0]] + ls[0] && r[1..] == ls[1..];
        }
        assert text == [text[0]] + rest;
      }
    }
  }

  /** No line read back from a text contains a newline. */
  lemma {:induction false} LinesHaveNoNewline(text: string)
    ensures forall i :: 0 <= i < |Lines(text)| ==> NoNewline(Lines(text)[i])
    decreases |text|
  {
    if text != [] {
      var ls := Lines(text[1..]);
      LinesHaveNoNewline(text[1..]);
      if text[0] != '\n' && ls != [] {
        var first := [text[0]] + ls[0];
        assert NoNewline(first) by {
          assert NoNewline(ls[0]);
          forall i | 0 <= i < |first| ensures first[i] != '\n' {
            if i > 0 { assert first[i] == ls[0][i - 1]; }
          }
        }
        var r := Lines(text);
        forall i | 0 <= i < |r| ensures NoNewline(r[i]) {
          if i > 0 { assert r[i] == ls[i]; }
        }
      }
    }
  }
}
