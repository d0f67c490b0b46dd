/*
 * `Single_Listing_Template`: the single-listing templates a listing may pick,
 * the `_wp_post_template` meta the edit screen saves, and the file WordPress
 * is told to render for a listing carrying that meta.
 *
 * The meta rows of one post under `_wp_post_template` are a sequence of
 * strings, oldest first; the capability and nonce answers WordPress gives
 * are fields of the save request.
 */
module ListingTemplate {
  import opened Wrappers
  import opened PhpValues

  const Classical := "listing-templates/single-listing-classical.php"
  const Elegant := "listing-templates/single-listing-elegant.php"
  const Luxurious := "listing-templates/single-listing-luxurious.php"
  const Solid := "listing-templates/single-listing-solid.php"
  const Spacious := "listing-templates/single-listing-spacious.php"
  const FirstImpression := "single-listing-first-impression.php"

  /** The stylesheet under which the theme template is offered. */
  const FirstImpressionTheme := "first-impression"

  /** The templates shipped in the plugin's own directory. */
  predicate PluginTemplate(key: string) {
    key == Classical || key == Elegant || key == Luxurious || key == Solid || key == Spacious
  }

  /** The template list built by the constructor: file => display name,
      the theme's own template added only under its stylesheet. */
  function ListingTemplates(stylesheet: string): (r: map<string, string>)
    ensures forall key :: key in r <==> PluginTemplate(key) || (key == FirstImpression && stylesheet == FirstImpressionTheme)
    ensures FirstImpression in r ==> r[FirstImpression] == "First Impression"
  {
    var shipped := map[Classical := "Classical", Elegant := "Elegant", Luxurious := "Luxurious",
                       Solid := "Solid", Spacious := "Spacious"];
    if stylesheet == FirstImpressionTheme then shipped[FirstImpression := "First Impression"] else shipped
  }

  /** The file a known template key resolves to: plugin templates under the
      plugin's `includes/` directory, the theme template in the active
      theme's directory. */
  function TemplateFile(key: string, pluginDir: string, stylesheetDir: string): (r: Option<string>)
    ensures r.Some? <==> PluginTemplate(key) || key == FirstImpression
    ensures PluginTemplate(key) ==> r == Some(pluginDir + key)
    ensures key == FirstImpression ==> r == Some(stylesheetDir + "/" + FirstImpression)
  {
    if PluginTemplate(key) then Some(pluginDir + key)
    else if key == FirstImpression then Some(stylesheetDir + "/" + FirstImpression)
    else None
  }

  /** `load_listing_template`: a listing whose first template row names a
      known template renders that file; anything else renders `template`.
      The theme template is honoured whatever the active stylesheet. */
  function LoadTemplate(template: string, postType: string, meta: seq<string>,
                        pluginDir: string, stylesheetDir: string): (r: string)
    ensures postType != "listing" || |meta| == 0 ==> r == template
    ensures postType == "listing" && |meta| > 0 && TemplateFile(meta[0], pluginDir, stylesheetDir).Some? ==>
              r == TemplateFile(meta[0], pluginDir, stylesheetDir).value
    ensures |meta| > 0 && TemplateFile(meta[0], pluginDir, stylesheetDir).None? ==> r == template
  {
    if postType == "listing" && |meta| > 0 then
      match TemplateFile(meta[0], pluginDir, stylesheetDir)
      case Some(file) => file
      case None => template
    else template
  }

  /** Every template the edit screen offers resolves to its own file. */
  lemma OfferedTemplatesLoad(stylesheet: string, key: string, pluginDir: string, stylesheetDir: string, template: string)
    requires key in ListingTemplates(stylesheet)
    ensures LoadTemplate(template, "listing", [key], pluginDir, stylesheetDir) ==
            if key == FirstImpression then stylesheetDir + "/" + key else pluginDir + key
  {
  }

  /** The `_wp_post_template` field as posted: absent, one value, or an
      array of values. */
  datatype Submitted = Missing | Scalar(value: string) | Many(values: seq<string>)

  /** `implode( ',', $items )`. */
  function Join(items: seq<string>): (s: string)
    ensures |items| == 1 ==> s == items[0]
    ensures |items| == 0 ==> s == ""
  {
    if |items| == 0 then ""
    else if |items| == 1 then items[0]
    else items[0] + "," + Join(items[1..])
  }

  /** `implode( ',', (array) $value )`: a missing value is the empty array. */
  function Flatten(v: Submitted): (s: string)
    ensures v.Missing? ==> s == ""
    ensures v.Scalar? ==> s == v.value
  {
    match v
    case Missing => ""
    case Scalar(x) => x
    case Many(xs) => Join(xs)
  }

  /** The position of the first comma, if any. */
  function FirstComma(s: string): (r: Option<nat>)
    ensures r.Some? ==> r.value < |s| && s[r.value] == ',' && forall j :: 0 <= j < r.value ==> s[j] != ','
    ensures r.None? <==> forall j :: 0 <= j < |s| ==> s[j] != ','
  {
    if |s| == 0 then None
    else if s[0] == ',' then Some(0)
    else match FirstComma(s[1..])
      case Some(i) => Some(i + 1)
      case None => None
  }

  /** `explode( ',', $s )`: the pieces between commas. */
  function Split(s: string): (parts: seq<string>)
    ensures |parts| > 0
    decreases |s|
  {
    match FirstComma(s)
    case None => [s]
    case Some(i) => [s[..i]] + Split(s[i + 1..])
  }

  predicate NoComma(x: string) {
    forall j :: 0 <= j < |x| ==> x[j] != ','
  }

  /** The first comma after a comma-free prefix is the one that ends it. */
  lemma {:induction false} FirstCommaAfter(x: string, rest: string)
    requires NoComma(x)
    ensures FirstComma(x + "," + rest) == Some(|x|)
  {
    var s := x + "," + rest;
    if |x| > 0 {
      assert s[1..] == x[1..] + "," + rest;
      assert NoComma(x[1..]) by {
        forall j | 0 <= j < |x[1..]|
          ensures x[1..][j] != ','
        {
          assert x[1..][j] == x[j + 1];
        }
      }
      FirstCommaAfter(x[1..], rest);
      assert s[0] == x[0];
    }
  }

  /** Splitting a comma-free piece followed by a comma peels off the piece. */
  lemma SplitCons(x: string, rest: string)
    requires NoComma(x)
    ensures Split(x + "," + rest) == [x] + Split(rest)
  {
    var s := x + "," + rest;
    FirstCommaAfter(x, rest);
    assert s[..|x|] == x;
    assert s[|x| + 1..] == rest;
  }

  /** Joined comma-free values split back into themselves: the stored CSV
      keeps every submitted value. */
  lemma {:induction false} SplitJoin(items: seq<string>)
    requires |items| > 0
    requires forall i :: 0 <= i < |items| ==> NoComma(items[i])
    ensures Split(Join(items)) == items
  {
    if |items| > 1 {
      SplitJoin(items[1..]);
      SplitCons(items[0], Join(items[1..]));
    }
  }

  /** What `metabox_save` learns from the request and from WordPress. */
  datatype SaveRequest = SaveRequest(
    nonceValid: bool,
    postedType: Option<string>,
    template: Submitted,
    postIsRevision: bool,
    canEditPage: bool,
    canEditPost: bool)

  /** The capability test as the code nests it: the `else` belongs to the
      inner `if`, so a posted type other than "listing" is never checked,
      and "listing" needs both capabilities. */
  predicate AllowedAsWritten(req: SaveRequest) {
    if req.postedType == Some("listing") then req.canEditPage && req.canEditPost
    else true
  }

  /** The capability test the comment and indentation describe: "listing"
      needs `edit_page`, any other type `edit_post`. */
  predicate AllowedIntended(req: SaveRequest) {
    if req.postedType == Some("listing") then req.canEditPage else req.canEditPost
  }

  /** The write once the checks pass: every existing row is updated to the
      value, or a row is added when there is none; then a blank value
      deletes every row. */
  function WriteTemplateMeta(meta: seq<string>, value: string): (r: seq<string>)
    ensures EmptyString(value) <==> r == []
    ensures !EmptyString(value) ==> |r| == (if |meta| == 0 then 1 else |meta|)
    ensures forall i :: 0 <= i < |r| ==> r[i] == value
  {
    var written := if |meta| > 0 then seq(|meta|, _ => value) else [value];
    if EmptyString(value) then [] else written
  }

  /** `metabox_save` with a given capability test. */
  function Save(meta: seq<string>, req: SaveRequest, allowed: bool): (r: seq<string>)
    ensures !req.nonceValid || !allowed || req.postIsRevision ==> r == meta
    ensures req.nonceValid && allowed && !req.postIsRevision ==> r == WriteTemplateMeta(meta, Flatten(req.template))
  {
    if !req.nonceValid || !allowed || req.postIsRevision then meta
    else WriteTemplateMeta(meta, Flatten(req.template))
  }

  /** `metabox_save` as written. */
  function MetaboxSave(meta: seq<string>, req: SaveRequest): (r: seq<string>)
    ensures !req.nonceValid || req.postIsRevision ==> r == meta
    ensures req.postedType != Some("listing") && req.nonceValid && !req.postIsRevision ==>
              r == WriteTemplateMeta(meta, Flatten(req.template))
    ensures req.postedType == Some("listing") && !(req.canEditPage && req.canEditPost) ==> r == meta
    ensures (req.postedType == Some("listing") && req.canEditPage && req.canEditPost &&
             req.nonceValid && !req.postIsRevision) ==> r == WriteTemplateMeta(meta, Flatten(req.template))
  {
    Save(meta, req, AllowedAsWritten(req))
  }

  /** `metabox_save` with the capability test it evidently intends. */
  function MetaboxSaveIntended(meta: seq<string>, req: SaveRequest): (r: seq<string>)
    ensures r != meta ==> req.nonceValid && !req.postIsRevision &&
                          (if req.postedType == Some("listing") then req.canEditPage else req.canEditPost)
  {
    Save(meta, req, AllowedIntended(req))
  }

  /** A user who may not edit posts still changes the template of a post
      submitted with a type other than "listing"; a user who may edit
      listings as pages but not as posts cannot change a listing's. */
  lemma DanglingElseCounterexamples()
    ensures var unprivileged := SaveRequest(true, Some("post"), Scalar(Elegant), false, false, false);
            MetaboxSave([], unprivileged) == [Elegant] && MetaboxSaveIntended([], unprivileged) == []
    ensures var pageEditor := SaveRequest(true, Some("listing"), Scalar(Elegant), false, true, false);
            MetaboxSave([], pageEditor) == [] && MetaboxSaveIntended([], pageEditor) == [Elegant]
  {
  }

  /** The two tests agree exactly when the posted type is "listing" and the
      user holds both capabilities or lacks `edit_page`, or the type is
      another and the user may edit posts. */
  lemma DanglingElseDiffers(req: SaveRequest)
    ensures AllowedAsWritten(req) == AllowedIntended(req) <==>
            (if req.postedType == Some("listing") then req.canEditPost || !req.canEditPage else req.canEditPost)
  {
  }

  /** Saving a template and rendering the listing agree: an authorised save
      of a known template makes the listing render that template's file;
      saving the default (blank) makes it render the theme's own choice. */
  lemma SaveThenLoad(meta: seq<string>, req: SaveRequest, template: string, pluginDir: string, stylesheetDir: string)
    requires req.nonceValid && !req.postIsRevision && AllowedIntended(req)
    requires req.template.Scalar?
    ensures var key := req.template.value;
            var saved := MetaboxSaveIntended(meta, req);
            (TemplateFile(key, pluginDir, stylesheetDir).Some? ==>
               LoadTemplate(template, "listing", saved, pluginDir, stylesheetDir) ==
               TemplateFile(key, pluginDir, stylesheetDir).value) &&
            (EmptyString(key) ==> LoadTemplate(template, "listing", saved, pluginDir, stylesheetDir) == template)
  {
    var key := req.template.value;
    if TemplateFile(key, pluginDir, stylesheetDir).Some? {
      assert !EmptyString(key);
      var saved := MetaboxSaveIntended(meta, req);
      assert |saved| > 0 && saved[0] == key;
    }
  }
}
