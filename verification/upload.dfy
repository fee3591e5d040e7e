/** `upload_images.py`: the `.env` lookup of `get_env_var`, the public URL that
    `upload_image` returns after a successful upload, and the merge of the
    upload results into `image_urls` done by `main`. The HTTP request, the
    base64 encoding, the clock and the random part of the remote file name are
    parameters. */
module Upload {
  import opened Wrappers
  import opened Text
  import opened ArticleData

  /** A `.env` candidate as `get_env_var` meets it: absent, present but failing
      to open, or the lines its iterator yields, each with its line terminator.
      A file whose reading fails part way is the lines read before the failure:
      the exception handler skips the rest of that file. */
  datatype EnvFile = Missing | Unreadable | Readable(lines: seq<string>)

  /** `line.startswith(f"{name}=")`. */
  predicate Defines(line: string, name: string)
  {
    StartsWith(line, name + "=")
  }

  /** `s.strip('"')`: `s` without the double quotes at either end. */
  function StripQuotes(s: string): (r: string)
    ensures |r| <= |s|
    decreases |s|
  {
    if s != [] && s[0] == '"' then StripQuotes(s[1..])
    else if s != [] && s[|s| - 1] == '"' then StripQuotes(s[..|s| - 1])
    else s
  }

  /** `line.split("=")[1].strip().strip('"')`: the text between the first and
      the second `=`, trimmed of whitespace and then of double quotes. */
  function ParseValue(line: string): string
    requires '=' in line
  {
    SplitLength(line, '=');
    StripQuotes(Strip(Split(line, '=')[1]))
  }

  /** A line that defines `name` holds an `=`. */
  lemma DefinesHasEquals(line: string, name: string)
    requires Defines(line, name)
    ensures '=' in line
  {
    assert line[|name|] == (name + "=")[|name|];
  }

  /** The value of the first line of `lines` that defines `name`. */
  function FirstDefinition(lines: seq<string>, name: string): Option<string>
  {
    if lines == [] then None
    else if Defines(lines[0], name) then DefinesHasEquals(lines[0], name); Some(ParseValue(lines[0]))
    else FirstDefinition(lines[1..], name)
  }

  /** What one `.env` candidate contributes. */
  function FileLookup(f: EnvFile, name: string): Option<string>
  {
    match f
    case Readable(lines) => FirstDefinition(lines, name)
    case _ => None
  }

  /** The candidates in order; the first that defines `name` decides. */
  function FilesLookup(files: seq<EnvFile>, name: string): Option<string>
  {
    if files == [] then None
    else if FileLookup(files[0], name).Some? then FileLookup(files[0], name)
    else FilesLookup(files[1..], name)
  }

  /** `get_env_var(name)`: a non-empty environment value, otherwise the first
      definition found in the `.env` files of the working directory, its parent
      and its grandparent, `files` in that order; `None` when there is none. */
  function EnvLookup(name: string, environ: map<string, string>, files: seq<EnvFile>): Option<string>
  {
    if name in environ && environ[name] != "" then Some(environ[name]) else FilesLookup(files, name)
  }

  /** `get_env_var`, searching file by file and line by line and returning at
      the first definition. */
  method GetEnvVar(name: string, environ: map<string, string>, files: seq<EnvFile>) returns (r: Option<string>)
    ensures r == EnvLookup(name, environ, files)
  {
    if name in environ && environ[name] != "" {
      return Some(environ[name]);
    }
    var i := 0;
    while i < |files|
      invariant 0 <= i <= |files|
      invariant FilesLookup(files, name) == FilesLookup(files[i..], name)
    {
      assert files[i..][1..] == files[i + 1..];
      if files[i].Readable? {
        var lines := files[i].lines;
        var j := 0;
        while j < |lines|
          invariant 0 <= j <= |lines|
          invariant FirstDefinition(lines, name) == FirstDefinition(lines[j..], name)
        {
          assert lines[j..][1..] == lines[j + 1..];
          if StartsWith(lines[j], name + "=") {
            DefinesHasEquals(lines[j], name);
            return Some(ParseValue(lines[j]));
          }
          j := j + 1;
        }
      }
      i := i + 1;
    }
    return None;
  }

  /** A non-empty environment value is the answer whatever the files hold. */
  lemma EnvironmentWins(name: string, environ: map<string, string>, files: seq<EnvFile>, others: seq<EnvFile>)
    requires name in environ && environ[name] != ""
    ensures EnvLookup(name, environ, files) == EnvLookup(name, environ, others) == Some(environ[name])
  {
  }

  /** Within one file: no value when no line defines `name`, and otherwise the
      value of the first line that does. */
  lemma {:induction false} FirstDefinitionMeaning(lines: seq<string>, name: string)
    ensures FirstDefinition(lines, name).None? <==> forall j :: 0 <= j < |lines| ==> !Defines(lines[j], name)
    ensures FirstDefinition(lines, name).Some? ==>
              exists j :: 0 <= j < |lines| && Defines(lines[j], name) && '=' in lines[j]
                          && FirstDefinition(lines, name) == Some(ParseValue(lines[j]))
                          && forall i :: 0 <= i < j ==> !Defines(lines[i], name)
  {
    if lines != [] && !Defines(lines[0], name) {
      FirstDefinitionMeaning(lines[1..], name);
      if FirstDefinition(lines, name).Some? {
        var j :| 0 <= j < |lines[1..]| && Defines(lines[1..][j], name) && '=' in lines[1..][j]
                 && FirstDefinition(lines[1..], name) == Some(ParseValue(lines[1..][j]))
                 && forall i :: 0 <= i < j ==> !Defines(lines[1..][i], name);
        assert lines[j + 1] == lines[1..][j];
        assert forall i :: 0 <= i < j + 1 ==> !Defines(lines[i], name) by {
          forall i | 0 <= i < j + 1 ensures !Defines(lines[i], name) {
            if i > 0 {
              assert lines[i] == lines[1..][i - 1];
            }
          }
        }
      } else {
        forall j | 0 <= j < |lines| ensures !Defines(lines[j], name) {
          if j > 0 {
            assert lines[j] == lines[1..][j - 1];
          }
        }
      }
    } else if lines != [] {
      DefinesHasEquals(lines[0], name);
    }
  }

  /** `.env` file `f` has a line defining `name`. */
  predicate DefinedIn(f: EnvFile, name: string)
  {
    f.Readable? && exists j :: 0 <= j < |f.lines| && Defines(f.lines[j], name)
  }

  /** Across the files: `None` exactly when no readable file defines `name`, and
      otherwise the answer of the first file that does; missing and unreadable
      files are passed over. */
  lemma {:induction false} FilesLookupMeaning(files: seq<EnvFile>, name: string)
    ensures FilesLookup(files, name).None? <==> forall k :: 0 <= k < |files| ==> !DefinedIn(files[k], name)
    ensures FilesLookup(files, name).Some? ==>
              exists k :: 0 <= k < |files| && DefinedIn(files[k], name)
                          && FilesLookup(files, name) == FileLookup(files[k], name)
                          && forall i :: 0 <= i < k ==> !DefinedIn(files[i], name)
  {
    if files != [] {
      FileMeaning(files[0], name);
      FilesLookupMeaning(files[1..], name);
      if FileLookup(files[0], name).None? {
        if FilesLookup(files, name).Some? {
          var k :| 0 <= k < |files[1..]| && DefinedIn(files[1..][k], name)
                   && FilesLookup(files[1..], name) == FileLookup(files[1..][k], name)
                   && forall i :: 0 <= i < k ==> !DefinedIn(files[1..][i], name);
          assert files[k + 1] == files[1..][k];
          forall i | 0 <= i < k + 1 ensures !DefinedIn(files[i], name) {
            if i > 0 {
              assert files[i] == files[1..][i - 1];
            }
          }
        } else {
          forall k | 0 <= k < |files| ensures !DefinedIn(files[k], name) {
            if k > 0 {
              assert files[k] == files[1..][k - 1];
            }
          }
        }
      }
    }
  }

  /** One file answers exactly when it is readable and defines `name`. */
  lemma FileMeaning(f: EnvFile, name: string)
    ensures FileLookup(f, name).Some? <==> DefinedIn(f, name)
  {
    if f.Readable? {
      FirstDefinitionMeaning(f.lines, name);
    }
  }

  /** A value holding `=` is cut at it: the value of `name=a=b` is `a`,
      stripped of whitespace and then of double quotes. */
  lemma ValueCutAtSecondEquals(name: string, a: string, b: string)
    requires '=' !in name && '=' !in a
    ensures '=' in name + "=" + a + "=" + b
    ensures ParseValue(name + "=" + a + "=" + b) == StripQuotes(Strip(a))
  {
    var line := name + "=" + a + "=" + b;
    assert line[|name|] == '=';
    SplitAfter(name, a + "=" + b, '=');
    assert line == name + "=" + (a + "=" + b);
    SplitAfter(a, b, '=');
  }

  /** Splitting `x + [sep] + y` with no `sep` in `x`: `x`, then the pieces of `y`. */
  lemma {:induction false} SplitAfter(x: string, y: string, sep: char)
    requires sep !in x
    ensures Split(x + [sep] + y, sep) == [x] + Split(y, sep)
  {
    var s := x + [sep] + y;
    if x == [] {
      assert s == [sep] + y;
      assert s[1..] == y;
    } else {
      assert s[0] == x[0] && s[1..] == x[1..] + [sep] + y;
      SplitAfter(x[1..], y, sep);
      assert [x[0]] + x[1..] == x;
    }
  }

  /** `s.strip('"')` leaves no double quote at either end. */
  lemma {:induction false} StripQuotesMeaning(s: string)
    ensures StripQuotes(s) == [] || (StripQuotes(s)[0] != '"' && StripQuotes(s)[|StripQuotes(s)| - 1] != '"')
    ensures '"' !in s ==> StripQuotes(s) == s
    decreases |s|
  {
    if s != [] && s[0] == '"' {
      StripQuotesMeaning(s[1..]);
    } else if s != [] && s[|s| - 1] == '"' {
      StripQuotesMeaning(s[..|s| - 1]);
    }
  }

  /** `get_env_var("GITHUB_BRANCH") or "main"`. */
  function BranchOrDefault(branch: Option<string>): string
  {
    if Truthy(branch) then branch.value else "main"
  }

  /** The URL `upload_image` returns for a file stored at `remotePath`: the
      GitHub Pages URL when `repo` unpacks into owner and name, otherwise the
      jsDelivr CDN URL on the branch. */
  function PublicUrl(repo: string, branch: Option<string>, remotePath: string): string
  {
    var parts := Split(repo, '/');
    if |parts| == 2 then "https://" + parts[0] + ".github.io/" + parts[1] + "/" + remotePath
    else "https://cdn.jsdelivr.net/gh/" + repo + "@" + BranchOrDefault(branch) + "/" + remotePath
  }

  /** `f"wechat-articles/{unique_name}"`, the unique name being built from the
      clock and a random id. */
  function RemotePath(uniqueName: string): string
  {
    "wechat-articles/" + uniqueName
  }

  /** The Pages URL is chosen exactly when `repo` holds one `/`; it names the
      owner and the repository that `repo` is made of. Any other `repo` gives
      the CDN URL, on `main` unless a branch is set. */
  lemma PublicUrlChoice(repo: string, branch: Option<string>, remotePath: string)
    ensures Count(repo, '/') == 1 ==>
              exists owner, name :: '/' !in owner && '/' !in name && repo == owner + "/" + name
                && PublicUrl(repo, branch, remotePath) == "https://" + owner + ".github.io/" + name + "/" + remotePath
    ensures Count(repo, '/') != 1 ==>
              PublicUrl(repo, branch, remotePath)
              == "https://cdn.jsdelivr.net/gh/" + repo + "@" + (if Truthy(branch) then branch.value else "main") + "/" + remotePath
  {
    var parts := Split(repo, '/');
    SplitLength(repo, '/');
    if |parts| == 2 {
      JoinSplit(repo, '/');
      assert Join(parts, '/') == parts[0] + "/" + parts[1] by {
        assert parts[1..] == [parts[1]];
      }
    }
  }

  /** `upload_image`'s result: `None` without a token or a repository, for a
      missing file, or when the upload does not answer 200 or 201 (`status`
      is `None` when the request raised); the public URL otherwise. */
  function UploadResult(token: Option<string>, repo: Option<string>, branch: Option<string>,
                        fileExists: bool, uniqueName: string, status: Option<int>): (r: Option<string>)
  {
    if !Truthy(token) || !Truthy(repo) then None
    else if !fileExists then None
    else if status.Some? && status.value in {200, 201} then Some(PublicUrl(repo.value, branch, RemotePath(uniqueName)))
    else None
  }

  /** An upload yields a URL exactly when both settings are set, the file
      exists and the server accepted it; that URL ends with the remote path. */
  lemma UploadResultMeaning(token: Option<string>, repo: Option<string>, branch: Option<string>,
                            fileExists: bool, uniqueName: string, status: Option<int>)
    ensures UploadResult(token, repo, branch, fileExists, uniqueName, status).Some?
            <==> Truthy(token) && Truthy(repo) && fileExists && status.Some? && (status.value == 200 || status.value == 201)
    ensures UploadResult(token, repo, branch, fileExists, uniqueName, status).Some? ==>
              var u := UploadResult(token, repo, branch, fileExists, uniqueName, status).value;
              |u| >= |RemotePath(uniqueName)| && u[|u| - |RemotePath(uniqueName)|..] == RemotePath(uniqueName)
  {
    if UploadResult(token, repo, branch, fileExists, uniqueName, status).Some? {
      var u := PublicUrl(repo.value, branch, RemotePath(uniqueName));
      var parts := Split(repo.value, '/');
      if |parts| == 2 {
        EndsWith("https://" + parts[0] + ".github.io/" + parts[1] + "/", RemotePath(uniqueName));
      } else {
        EndsWith("https://cdn.jsdelivr.net/gh/" + repo.value + "@" + BranchOrDefault(branch) + "/", RemotePath(uniqueName));
      }
    }
  }

  lemma EndsWith(a: string, b: string)
    ensures (a + b)[|a + b| - |b|..] == b
  {
  }

  /** What step 2 of `main` learns about `images/content_<i>.png`: it is not
      there, or it was uploaded with this result. */
  datatype ContentImage = NotFound | Uploaded(result: Option<string>)

  /** The number of content image slots, `content_1.png` to `content_3.png`. */
  const ContentSlots := 3

  /** Step 2 of `main`: one entry per slot, `None` for a missing image. */
  method CollectContentUrls(probe: nat -> ContentImage) returns (urls: seq<Option<string>>)
    ensures |urls| == ContentSlots
    ensures forall i :: 0 <= i < ContentSlots ==>
              urls[i] == (if probe(i + 1).Uploaded? then probe(i + 1).result else None)
  {
    urls := [];
    for i := 1 to ContentSlots + 1
      invariant |urls| == i - 1
      invariant forall k :: 0 <= k < i - 1 ==>
                  urls[k] == (if probe(k + 1).Uploaded? then probe(k + 1).result else None)
    {
      var image := probe(i);
      if image.Uploaded? {
        urls := urls + [image.result];
      } else {
        urls := urls + [None];
      }
    }
  }

  /** The merge loop of `main`: slot `i` keeps a new URL when there is one, else
      the URL already stored at `i` when there is one, else `None`; an empty URL
      counts as none. */
  method MergeContentUrls(newUrls: seq<Option<string>>, current: seq<Option<string>>) returns (merged: seq<Option<string>>)
    ensures |merged| == |newUrls|
    ensures forall i :: 0 <= i < |newUrls| && Truthy(newUrls[i]) ==> merged[i] == newUrls[i]
    ensures forall i :: 0 <= i < |newUrls| && !Truthy(newUrls[i]) && i < |current| && Truthy(current[i]) ==>
              merged[i] == current[i]
    ensures forall i :: 0 <= i < |newUrls| && !Truthy(newUrls[i]) && !(i < |current| && Truthy(current[i])) ==>
              merged[i] == None
  {
    merged := [];
    for i := 0 to |newUrls|
      invariant |merged| == i
      invariant forall k :: 0 <= k < i && Truthy(newUrls[k]) ==> merged[k] == newUrls[k]
      invariant forall k :: 0 <= k < i && !Truthy(newUrls[k]) && k < |current| && Truthy(current[k]) ==>
                  merged[k] == current[k]
      invariant forall k :: 0 <= k < i && !Truthy(newUrls[k]) && !(k < |current| && Truthy(current[k])) ==>
                  merged[k] == None
    {
      if Truthy(newUrls[i]) {
        merged := merged + [newUrls[i]];
      } else if i < |current| && Truthy(current[i]) {
        merged := merged + [current[i]];
      } else {
        merged := merged + [None];
      }
    }
  }

  /** Steps 2 and 3 of `main`: `image_urls` (created when absent) gets the new
      cover URL when one was obtained, and a content list of exactly three
      slots merged from the new uploads and the stored list. */
  method RecordUploads(imageUrls: Option<ImageUrls>, newCover: Option<string>, probe: nat -> ContentImage)
    returns (updated: ImageUrls)
    ensures updated.cover == if Truthy(newCover) then newCover else if imageUrls.Some? then imageUrls.value.cover else None
    ensures updated.content.Some? && |updated.content.value| == ContentSlots
    ensures forall i :: 0 <= i < ContentSlots ==>
              var stored := if imageUrls.Some? && imageUrls.value.content.Some? then imageUrls.value.content.value else [];
              var latest := if probe(i + 1).Uploaded? then probe(i + 1).result else None;
              updated.content.value[i] == (if Truthy(latest) then latest
                                           else if i < |stored| && Truthy(stored[i]) then stored[i] else None)
  {
    var urls := if imageUrls.Some? then imageUrls.value else ImageUrls(None, None);
    var newContent := CollectContentUrls(probe);
    if Truthy(newCover) {
      urls := urls.(cover := newCover);
    }
    var stored := if urls.content.Some? then urls.content.value else [];
    var merged := MergeContentUrls(newContent, stored);
    updated := urls.(content := Some(merged));
  }
}
