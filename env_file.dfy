/**
  The `.env` rewriting of tools/core/function.go: `updateEnvVariable` splits
  the file into lines, overwrites the first assignment line whose key is the
  variable's name with `name=value`, stops there, and joins the lines back.
  `getKey`, `getParts`, `getLines`, `split` and `trim` are pure helpers; `split`
  and `trim` are `GoStrings.Split` and `GoStrings.TrimSpace`.
 */
module EnvFile {
  import opened GoStrings

  /** `getParts`: the trimmed line split at every `=`. */
  function GetParts(line: string): seq<string>
  {
    Split(TrimSpace(line), '=')
  }

  /**
    The parts are never empty, hold no `=`, and joined back with `=` give the
    trimmed line.
   */
  lemma PartsOfLine(line: string)
    ensures |GetParts(line)| >= 1
    ensures forall i :: 0 <= i < |GetParts(line)| ==> '=' !in GetParts(line)[i]
    ensures Join(GetParts(line), '=') == TrimSpace(line)
  {
    JoinSplit(TrimSpace(line), '=');
    SplitPiecesFree(TrimSpace(line), '=');
  }

  /**
    `getKey`: the trimmed line up to its first `=`, or the whole trimmed line
    when it has none.
   */
  function GetKey(line: string): string
  {
    var parts := GetParts(line);
    if |parts| > 0 then parts[0] else ""
  }

  /** The key is the longest `=`-free prefix of the trimmed line. */
  lemma KeyOfLine(line: string)
    ensures '=' !in GetKey(line)
    ensures HasPrefix(TrimSpace(line), GetKey(line))
    ensures |GetKey(line)| < |TrimSpace(line)| ==> TrimSpace(line)[|GetKey(line)|] == '='
  {
    SplitFirst(TrimSpace(line), '=');
    SplitPiecesFree(TrimSpace(line), '=');
  }

  /** `getLines`: the text split at every newline. */
  function GetLines(data: string): (lines: seq<string>)
    ensures |lines| >= 1
    ensures Join(lines, '\n') == data
  {
    JoinSplit(data, '\n');
    Split(data, '\n')
  }

  /** A line the loop looks at: not empty and not starting with `#`. */
  predicate IsAssignment(line: string)
  {
    line != "" && line[0] != '#'
  }

  /** A line that assigns the variable `name`. */
  predicate Assigns(line: string, name: string)
  {
    IsAssignment(line) && GetKey(line) == name
  }

  /** The index of the first line assigning `name`, or `|lines|` when there is none. */
  function FirstAssignment(lines: seq<string>, name: string): (k: nat)
    ensures k <= |lines|
    ensures forall j :: 0 <= j < k ==> !Assigns(lines[j], name)
    ensures k < |lines| ==> Assigns(lines[k], name)
    decreases |lines|
  {
    if |lines| == 0 then 0
    else if Assigns(lines[0], name) then 0
    else 1 + FirstAssignment(lines[1..], name)
  }

  /** Scanning from the start, line `i` is the first assignment exactly when it assigns `name`. */
  lemma FirstAssignmentStep(lines: seq<string>, name: string, i: nat)
    requires i <= FirstAssignment(lines, name)
    requires i < |lines|
    ensures Assigns(lines[i], name) <==> FirstAssignment(lines, name) == i
  {
  }

  /** The lines after the update: the first assignment of `name` rewritten, all else kept. */
  function UpdatedLines(lines: seq<string>, name: string, value: string): (r: seq<string>)
    ensures |r| == |lines|
    ensures var k := FirstAssignment(lines, name);
      (k < |lines| ==> r[k] == name + "=" + value)
      && (forall j :: 0 <= j < |lines| && j != k ==> r[j] == lines[j])
    ensures forall j :: 0 <= j < |lines| && !IsAssignment(lines[j]) ==> r[j] == lines[j]
    ensures (forall j :: 0 <= j < |lines| ==> !Assigns(lines[j], name)) ==> r == lines
  {
    var k := FirstAssignment(lines, name);
    if k < |lines| then lines[k := name + "=" + value] else lines
  }

  /** `updateEnvVariable(envData, variableName, variableValue)`. */
  method UpdateEnvVariable(envData: string, variableName: string, variableValue: string)
    returns (result: string)
    ensures result == Join(UpdatedLines(GetLines(envData), variableName, variableValue), '\n')
  {
    var ls := GetLines(envData);
    ghost var k := FirstAssignment(ls, variableName);
    var lines := ls;
    var i := 0;
    while i < |lines|
      invariant i <= k
      invariant lines == ls
    {
      var line := lines[i];
      if line != "" && line[0] != '#' {
        var key := GetKey(line);
        if key == variableName {
          FirstAssignmentStep(ls, variableName, i);
          var parts := GetParts(line);
          if |parts| > 0 {
            lines := lines[i := variableName + "=" + variableValue];
          }
          break;
        }
      }
      FirstAssignmentStep(ls, variableName, i);
      i := i + 1;
    }
    result := Join(lines, '\n');
  }

  /** A key is a piece of its line, so it holds no rune the line does not. */
  lemma KeyWithinLine(line: string, c: char)
    requires c !in line
    ensures c !in GetKey(line)
  {
    TrimSpaceSlice(line);
    KeyOfLine(line);
    var key := GetKey(line);
    var i := LeadingSpace(line);
    forall n | 0 <= n < |key|
      ensures key[n] != c
    {
      assert key[n] == TrimSpace(line)[n] == line[i + n];
    }
  }

  /**
    The rewritten text has as many lines as the original, line by line equal to
    `UpdatedLines`, provided the new value holds no newline.
   */
  lemma {:induction false} UpdateKeepsLineCount(envData: string, name: string, value: string)
    requires '\n' !in value
    ensures var updated := UpdatedLines(GetLines(envData), name, value);
      GetLines(Join(updated, '\n')) == updated
      && |GetLines(Join(updated, '\n'))| == |GetLines(envData)|
  {
    var lines := GetLines(envData);
    var updated := UpdatedLines(lines, name, value);
    var k := FirstAssignment(lines, name);
    SplitPiecesFree(envData, '\n');
    forall j | 0 <= j < |updated|
      ensures '\n' !in updated[j]
    {
      if j == k {
        KeyWithinLine(lines[k], '\n');
      }
    }
    SplitJoin(updated, '\n');
  }

  /** When no line assigns the variable, the text comes back exactly as it was. */
  lemma {:induction false} UpdateWithoutMatchIsIdentity(envData: string, name: string, value: string)
    requires forall j :: 0 <= j < |GetLines(envData)| ==> !Assigns(GetLines(envData)[j], name)
    ensures Join(UpdatedLines(GetLines(envData), name, value), '\n') == envData
  {
  }
}
