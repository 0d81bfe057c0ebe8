/** `PhotoPreviewComponent`: the display helpers of the preview card. */
module PhotoPreview {
  import opened Outcomes
  import opened Text
  import opened PhotoUploadService

  /** `hasPhoto`: a record is bound. */
  function HasPhoto(uploadedFile: Option<UploadedFile>): (r: bool)
    ensures r <==> uploadedFile != None
  {
    uploadedFile.Some?
  }

  /** `getFileExtension`: the text after the last '.', upper-cased; the
      whole name, upper-cased, when it holds no '.'; empty for a name
      ending in '.'. */
  function GetFileExtension(filename: string): (r: string)
    ensures '.' !in r
    ensures |r| <= |filename| && r == ToUpper(filename[|filename| - |r|..])
    ensures |r| < |filename| ==> filename[|filename| - |r| - 1] == '.'
  {
    var last := AfterLastDot(filename);
    UpperKeepsDotFree(last);
    ToUpper(last)
  }

  /** Upper-casing never introduces a '.'. */
  lemma UpperKeepsDotFree(s: string)
    requires '.' !in s
    ensures '.' !in ToUpper(s)
  {
    var upper := ToUpper(s);
    forall i | 0 <= i < |upper|
      ensures upper[i] != '.'
    {
      assert s[i] != '.';
    }
  }

  // ----- Properties -----

  /** A name without any '.' yields the whole name, upper-cased. */
  lemma NoDotGivesWholeName(filename: string)
    requires '.' !in filename
    ensures GetFileExtension(filename) == ToUpper(filename)
  {
    assert |GetFileExtension(filename)| == |filename|;
  }

  /** A name ending in '.' has an empty extension. */
  lemma TrailingDotGivesEmpty(stem: string)
    ensures GetFileExtension(stem + ".") == ""
  {
    var name := stem + ".";
    assert name[|name| - 1] == '.';
  }

  /** Joining a stem and a dot-free extension with '.' gives back the
      extension, upper-cased, whatever the stem holds. */
  lemma {:induction false} ExtensionRoundTrip(stem: string, ext: string)
    requires '.' !in ext
    ensures GetFileExtension(stem + "." + ext) == ToUpper(ext)
  {
    var name := stem + "." + ext;
    AfterLastDotOfSuffix(stem + ".", ext);
    assert AfterLastDot(name) == ext;
  }

  /** Appending dot-free text to a string ending in '.' makes the appended
      text the part after the last dot. */
  lemma {:induction false} AfterLastDotOfSuffix(prefix: string, ext: string)
    requires |prefix| > 0 && prefix[|prefix| - 1] == '.'
    requires '.' !in ext
    ensures AfterLastDot(prefix + ext) == ext
    decreases |ext|
  {
    var name := prefix + ext;
    if |ext| == 0 {
      assert name == prefix;
    } else {
      var shorter := ext[..|ext| - 1];
      assert name[..|name| - 1] == prefix + shorter;
      assert name[|name| - 1] == ext[|ext| - 1];
      assert ext[|ext| - 1] in ext;
      AfterLastDotOfSuffix(prefix, shorter);
      assert shorter + [ext[|ext| - 1]] == ext;
    }
  }

  /** An ordinary name shows its extension upper-cased. */
  lemma OrdinaryNameExample()
    ensures GetFileExtension("car.jpg") == "JPG"
  {
    var name := "car.jpg";
    assert name == "car" + "." + "jpg";
    assert GetFileExtension(name) == ToUpper("jpg") by {
      ExtensionRoundTrip("car", "jpg");
    }
    assert ToUpper("jpg") == "JPG";
  }

  /** Of a double extension only the last part is shown. */
  lemma DoubleExtensionExample()
    ensures GetFileExtension("a.tar.png") == "PNG"
  {
    var name := "a.tar.png";
    assert name == "a.tar" + "." + "png";
    assert GetFileExtension(name) == ToUpper("png") by {
      ExtensionRoundTrip("a.tar", "png");
    }
    assert ToUpper("png") == "PNG";
  }

  /** A name without extension is shown whole. */
  lemma NoExtensionExample()
    ensures GetFileExtension("photo") == "PHOTO"
  {
    NoDotGivesWholeName("photo");
    assert ToUpper("photo") == "PHOTO";
  }
}
