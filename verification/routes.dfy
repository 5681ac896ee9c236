/** The routes of the second web application that decide something: the
    detection route's choice between an uploaded file and a URL, the three
    demo checks and the blog-post form check. Form fields are `Option`s
    (`request.form.get` gives `None` for a missing field), the detector
    and `secure_filename` are inputs, and the uploads folder is a set of
    paths. */
module Routes {
  import opened Common

  // ---------------------------------------------------------------------
  // detect_deepfake_route

  /** An uploaded file part; werkzeug treats a part whose filename is empty
      as falsy. */
  datatype FilePart = FilePart(filename: string)

  /** A form string is truthy when present and not empty. */
  predicate Truthy(v: Option<string>) {
    v.Some? && v.value != ""
  }

  predicate FileTruthy(f: Option<FilePart>) {
    f.Some? && f.value.filename != ""
  }

  /** Where the file is saved: `os.path.join('uploads', safeName)`, with
      `safeName` what `secure_filename` makes of the part's filename. */
  function UploadPath(safeName: string): string {
    "uploads/" + safeName
  }

  /** What the detector is run on, `None` for the 400 reply "No URL or file
      provided". */
  function DetectSource(url: Option<string>, file: Option<FilePart>, safeName: string): Option<string> {
    if !Truthy(url) && !FileTruthy(file) then None
    else if FileTruthy(file) then Some(UploadPath(safeName))
    else Some(url.value)
  }

  /** The route rejects a request exactly when it has neither a non-empty
      URL nor a named file; a named file wins over any URL; an empty
      filename counts as no file, so the URL is used. */
  lemma DetectSourceRule(url: Option<string>, file: Option<FilePart>, safeName: string)
    ensures DetectSource(url, file, safeName).None? <==> !Truthy(url) && !FileTruthy(file)
    ensures FileTruthy(file) ==> DetectSource(url, file, safeName) == Some(UploadPath(safeName))
    ensures !FileTruthy(file) && Truthy(url) ==> DetectSource(url, file, safeName) == Some(url.value)
    ensures DetectSource(url, file, safeName).Some? ==> DetectSource(url, file, safeName).value != ""
  {
  }

  /** The detector's verdict; the mock draws it at random. */
  datatype Detection = Detection(isDeepfake: bool, confidence: real)

  datatype RouteReply = BadRequest(error: string) | Detected(result: Detection)

  const NoInputError := "No URL or file provided"

  /** The server's uploads folder. */
  class UploadsFolder {
    var files: set<string>

    constructor ()
      ensures files == {}
    {
      files := {};
    }

    /** `detect_deepfake_route`: a file is saved, given to the detector by
        its path and removed again; a URL is given as it is. */
    method DetectDeepfakeRoute(url: Option<string>, file: Option<FilePart>, safeName: string, detect: string -> Detection)
      returns (reply: RouteReply)
      modifies this
      ensures DetectSource(url, file, safeName).None? ==> reply == BadRequest(NoInputError)
      ensures DetectSource(url, file, safeName).Some? ==> reply == Detected(detect(DetectSource(url, file, safeName).value))
      ensures FileTruthy(file) ==> files == old(files) - {UploadPath(safeName)}
      ensures !FileTruthy(file) ==> files == old(files)
    {
      if !Truthy(url) && !FileTruthy(file) {
        return BadRequest(NoInputError);
      }
      if FileTruthy(file) {
        var path := UploadPath(safeName);
        files := files + {path};
        var result := detect(path);
        files := files - {path};
        reply := Detected(result);
      } else {
        reply := Detected(detect(url.value));
      }
    }
  }

  // ---------------------------------------------------------------------
  // The demos; `None` stands for the TypeError `len(None)` raises

  /** `demo_kyc`: `len(name) > 3 and len(id_number) > 5`. */
  function DemoKyc(name: Option<string>, idNumber: Option<string>): Option<bool> {
    if name.None? then None
    else if |name.value| <= 3 then Some(false)
    else if idNumber.None? then None
    else Some(|idNumber.value| > 5)
  }

  /** Verified exactly for a name of at least 4 and an id of at least 6
      characters; thanks to `and`, a short name is rejected even when the id
      field is missing, and only a missing name or a missing id after a
      long enough name raise. */
  lemma DemoKycRule(name: Option<string>, idNumber: Option<string>)
    ensures DemoKyc(name, idNumber) == Some(true) <==>
              name.Some? && |name.value| >= 4 && idNumber.Some? && |idNumber.value| >= 6
    ensures DemoKyc(name, idNumber).None? <==> name.None? || (|name.value| > 3 && idNumber.None?)
    ensures name.Some? && |name.value| <= 3 ==> DemoKyc(name, idNumber) == Some(false)
  {
  }

  /** `demo_media_verification`: `len(url) > 10 and '.' in url`. */
  function DemoMediaVerification(url: Option<string>): Option<bool> {
    if url.None? then None else Some(|url.value| > 10 && '.' in url.value)
  }

  /** Authentic exactly for a URL of at least 11 characters with a dot
      somewhere; nothing else about the URL is looked at, so any dotted
      text of that length passes. */
  lemma DemoMediaVerificationRule(url: Option<string>)
    ensures DemoMediaVerification(url) == Some(true) <==>
              url.Some? && |url.value| >= 11 && CountChar(url.value, '.') >= 1
    ensures DemoMediaVerification(url).None? <==> url.None?
  {
  }

  datatype ThreatLevel = High | Low

  /** `demo_threat_intelligence`: "High" when the address splits into four
      pieces on '.'. */
  function DemoThreatIntelligence(ipAddress: Option<string>): Option<ThreatLevel> {
    if ipAddress.None? then None
    else if |Split(ipAddress.value, '.')| == 4 then Some(High)
    else Some(Low)
  }

  /** "High" exactly for addresses with three dots, which are then four
      dot-free fields joined by dots; the fields are never checked to be
      numbers. */
  lemma ThreatLevelRule(ip: string)
    ensures DemoThreatIntelligence(Some(ip)) == Some(High) <==> CountChar(ip, '.') == 3
    ensures DemoThreatIntelligence(Some(ip)) == Some(High) ==>
              var p := Split(ip, '.');
              ip == p[0] + "." + p[1] + "." + p[2] + "." + p[3]
  {
    var p := Split(ip, '.');
    if |p| == 4 {
      SplitJoin(ip, '.');
      JoinFour(p);
    }
  }

  lemma JoinFour(p: seq<string>)
    requires |p| == 4
    ensures Join(p, '.') == p[0] + "." + p[1] + "." + p[2] + "." + p[3]
  {
    var q, r := p[1..], p[2..];
    assert q[1..] == r && r[1..] == [p[3]];
    assert Join(r, '.') == p[2] + ['.'] + p[3];
    assert Join(q, '.') == p[1] + ['.'] + Join(r, '.');
    assert Join(p, '.') == p[0] + ['.'] + Join(q, '.');
  }

  /** Any four dot-free fields joined by dots, empty ones and non-numbers
      included, rate "High". */
  lemma FourFieldsAreHigh(a: string, b: string, c: string, d: string)
    requires '.' !in a && '.' !in b && '.' !in c && '.' !in d
    ensures DemoThreatIntelligence(Some(a + "." + b + "." + c + "." + d)) == Some(High)
  {
    CountCharAppend(a, ".", '.');
    CountCharAppend(a + ".", b, '.');
    CountCharAppend(a + "." + b, ".", '.');
    CountCharAppend(a + "." + b + ".", c, '.');
    CountCharAppend(a + "." + b + "." + c, ".", '.');
    CountCharAppend(a + "." + b + "." + c + ".", d, '.');
    assert CountChar(".", '.') == 1;
    ThreatLevelRule(a + "." + b + "." + c + "." + d);
  }

  // ---------------------------------------------------------------------
  // create_blog_post

  datatype Post = Post(title: string, content: string, author: int)

  datatype Flash = Flash(message: string, category: string)

  /** The post the form makes, `None` when the title or the content is
      missing or empty. */
  function NewPost(title: Option<string>, content: Option<string>, author: int): (p: Option<Post>)
    ensures p.Some? <==> Truthy(title) && Truthy(content)
    ensures p.Some? ==> p.value.title == title.value && p.value.content == content.value && p.value.author == author
  {
    if !Truthy(title) || !Truthy(content) then None
    else Some(Post(title.value, content.value, author))
  }

  /** The blog's posts, in creation order. */
  class Blog {
    var posts: seq<Post>

    constructor ()
      ensures posts == []
    {
      posts := [];
    }

    /** `create_blog_post` on a POST by the logged-in `author`: an empty or
        missing title or content adds nothing; otherwise the post is
        appended. */
    method CreateBlogPost(title: Option<string>, content: Option<string>, author: int) returns (flash: Flash)
      modifies this
      ensures NewPost(title, content, author).None? ==>
                posts == old(posts) && flash == Flash("Title and content are required.", "error")
      ensures NewPost(title, content, author).Some? ==>
                posts == old(posts) + [NewPost(title, content, author).value] &&
                flash == Flash("Your blog post has been created!", "success")
    {
      if !Truthy(title) || !Truthy(content) {
        return Flash("Title and content are required.", "error");
      }
      posts := posts + [Post(title.value, content.value, author)];
      flash := Flash("Your blog post has been created!", "success");
    }
  }
}
