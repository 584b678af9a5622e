/** The development file server of the wasm client: it rewrites request paths for shader
    hot-reloading and decides where a posted scene is saved. The functions take the path
    component of the request URL (what `urlparse(...).path` yields). */
module DebugApi {
  import opened Text

  const ShaderPath: string := "dependencies/wgleng/src/wgleng/rendering/shaders"
  const ScenesPath: string := "src/scenes"

  /** The file a GET request is served from, relative to the script's directory.
      With the path split on '/', a path whose second and third pieces are "rendering"
      and "shaders" loses its first three pieces in favour of the shader directory; a path
      whose second piece is "scenes" loses its first two in favour of the scenes directory;
      any other path is served as it is. */
  function NewPath(path: string): string {
    var parts := Split(path, '/');
    if |parts| > 2 && parts[1] == "rendering" && parts[2] == "shaders" then
      Join([ShaderPath] + parts[3..], '/')
    else if |parts| > 2 && parts[1] == "scenes" then
      Join([ScenesPath] + parts[2..], '/')
    else
      Join(parts, '/')
  }

  /** The name a POST request saves its scene under: the third piece of a path whose second
      piece is "SaveScene", "Unknown" otherwise. */
  function SceneName(path: string): string {
    var parts := Split(path, '/');
    if |parts| > 2 && parts[1] == "SaveScene" then parts[2] else "Unknown"
  }

  /** The header file a POST request writes its body to. */
  function SceneFile(path: string): string {
    ScenesPath + "/" + SceneName(path) + ".h"
  }

  lemma JoinCons(a: string, ps: seq<string>, sep: char)
    requires |ps| >= 1
    ensures Join([a] + ps, sep) == a + [sep] + Join(ps, sep)
  {
    assert ([a] + ps)[1..] == ps;
  }

  /** A separator-free piece followed by '/' becomes the first piece of the split. */
  lemma SplitPiece(x: string, t: string)
    requires '/' !in x
    ensures Split(x + "/" + t, '/') == [x] + Split(t, '/')
  {
    assert x + "/" + t == x + ("/" + t);
    SplitPrefix(x, "/" + t, '/');
    assert ("/" + t)[1..] == t;
    assert Split("/" + t, '/') == [""] + Split(t, '/');
    assert x + "" == x;
  }

  /** How a shader request splits: the three leading pieces, then the pieces of the rest. */
  lemma ShaderRequestPieces(w: string, rest: string)
    requires '/' !in w
    ensures Split(w + "/rendering/shaders/" + rest, '/') == [w, "rendering", "shaders"] + Split(rest, '/')
  {
    var t2 := "shaders" + "/" + rest;
    var t1 := "rendering" + "/" + t2;
    assert "/rendering/shaders/" == "/" + "rendering" + "/" + "shaders" + "/";
    assert w + "/rendering/shaders/" + rest == w + "/" + t1;
    SplitPiece(w, t1);
    SplitPiece("rendering", t2);
    SplitPiece("shaders", rest);
    assert Split(w + "/" + t1, '/') == [w] + ([("rendering")] + ([("shaders")] + Split(rest, '/')));
  }

  /** A request under "/rendering/shaders/" is served from the shader directory with the
      rest of its path kept. */
  lemma {:induction false} ShaderRequestRewritten(w: string, rest: string)
    requires '/' !in w
    ensures NewPath(w + "/rendering/shaders/" + rest) == ShaderPath + "/" + rest
  {
    var parts := Split(w + "/rendering/shaders/" + rest, '/');
    ShaderRequestPieces(w, rest);
    assert parts[1] == "rendering" && parts[2] == "shaders" && parts[3..] == Split(rest, '/');
    JoinCons(ShaderPath, Split(rest, '/'), '/');
    JoinSplit(rest, '/');
  }

  /** How a request with one named segment after its leading piece splits: the leading piece,
      the segment, then the pieces of the rest. */
  lemma SegmentPieces(w: string, segment: string, rest: string)
    requires '/' !in w && '/' !in segment
    ensures Split(w + "/" + segment + "/" + rest, '/') == [w, segment] + Split(rest, '/')
  {
    var t1 := segment + "/" + rest;
    assert w + "/" + segment + "/" + rest == w + "/" + t1;
    SplitPiece(w, t1);
    SplitPiece(segment, rest);
    assert Split(w + "/" + t1, '/') == [w] + ([segment] + Split(rest, '/'));
  }

  /** A request under "/scenes/" is served from the scenes directory with the rest kept. */
  lemma {:induction false} SceneRequestRewritten(w: string, rest: string)
    requires '/' !in w
    ensures NewPath(w + "/scenes/" + rest) == ScenesPath + "/" + rest
  {
    var parts := Split(w + "/scenes/" + rest, '/');
    assert w + "/scenes/" + rest == w + "/" + "scenes" + "/" + rest;
    SegmentPieces(w, "scenes", rest);
    assert parts[1] == "scenes" && parts[2..] == Split(rest, '/');
    assert "scenes" != "rendering" by { assert "scenes"[0] != "rendering"[0]; }
    JoinCons(ScenesPath, Split(rest, '/'), '/');
    JoinSplit(rest, '/');
  }

  /** Any other path is served unchanged. */
  lemma {:induction false} OtherRequestUnchanged(path: string)
    requires var parts := Split(path, '/');
      |parts| <= 2 || (parts[1] != "scenes" && !(parts[1] == "rendering" && parts[2] == "shaders"))
    ensures NewPath(path) == path
  {
    JoinSplit(path, '/');
  }

  /** A separator-free name followed by nothing or by '/' is the first piece. */
  lemma NameFirstPiece(name: string, tail: string)
    requires '/' !in name
    requires tail == "" || tail[0] == '/'
    ensures Split(name + tail, '/')[0] == name
  {
    SplitPrefix(name, tail, '/');
    if tail == "" {
      assert Split(tail, '/') == [""];
    } else {
      assert tail == "/" + tail[1..];
      assert Split(tail, '/') == [""] + Split(tail[1..], '/');
    }
    assert name + "" == name;
  }

  /** A save request names its scene by the piece after "SaveScene"; later pieces are ignored. */
  lemma {:induction false} SaveSceneFile(w: string, name: string, tail: string)
    requires '/' !in w && '/' !in name
    requires tail == "" || tail[0] == '/'
    ensures SceneFile(w + "/SaveScene/" + name + tail) == "src/scenes/" + name + ".h"
  {
    assert w + "/SaveScene/" + name + tail == w + "/SaveScene/" + (name + tail);
    assert w + "/SaveScene/" + (name + tail) == w + "/" + "SaveScene" + "/" + (name + tail);
    SegmentPieces(w, "SaveScene", name + tail);
    NameFirstPiece(name, tail);
  }

  /** Any other POST path is saved as the "Unknown" scene. */
  lemma UnknownSceneFile(path: string)
    requires var parts := Split(path, '/'); |parts| <= 2 || parts[1] != "SaveScene"
    ensures SceneFile(path) == "src/scenes/Unknown.h"
  {
  }
}
