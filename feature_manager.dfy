/** The product-features screen: the feature object a save writes, how a
    feature value is shown, and the form's reset of the value when the
    feature type changes. */
module FeatureManager {
  import opened Common

  datatype FeatureType = Text | Number | Boolean | Date

  /** A row of `product_features` (the columns the screen reads or writes). */
  datatype ProductFeature = ProductFeature(
    id: string,
    productId: string,
    name: string,
    value: string,
    featureType: FeatureType,
    isRequired: bool,
    displayOrder: int)

  datatype FeatureForm = FeatureForm(name: string, value: string, featureType: FeatureType, isRequired: bool, displayOrder: int)

  /** What handleSaveFeature sends: the form, the selected product's id and
      the display order the save settles on. */
  datatype FeatureData = FeatureData(
    name: string,
    value: string,
    featureType: FeatureType,
    isRequired: bool,
    displayOrder: int,
    productId: string)

  /** The form after resetForm (and when the screen opens). */
  const EmptyForm: FeatureForm := FeatureForm("", "", Text, false, 0)

  /** startEditFeature: the feature's fields in the form. */
  function FormOf(f: ProductFeature): FeatureForm
  {
    FeatureForm(f.name, f.value, f.featureType, f.isRequired, f.displayOrder)
  }

  /** handleSaveFeature's featureData: nothing when no product is selected;
      otherwise the form for the selected product, with a display order of 0
      replaced by the number of features currently listed. */
  function FeatureDataOf(selectedProduct: Option<string>, form: FeatureForm, features: seq<ProductFeature>): (r: Option<FeatureData>)
    ensures r.None? <==> selectedProduct.None?
    ensures r.Some? ==> r.value.productId == selectedProduct.value
    ensures r.Some? ==> r.value.displayOrder == if form.displayOrder != 0 then form.displayOrder else |features|
    ensures r.Some? ==> r.value.name == form.name && r.value.value == form.value &&
                         r.value.featureType == form.featureType && r.value.isRequired == form.isRequired
  {
    match selectedProduct
    case None => None
    case Some(p) =>
      Some(FeatureData(form.name, form.value, form.featureType, form.isRequired,
                       if form.displayOrder != 0 then form.displayOrder else |features|, p))
  }

  /** A new feature saved from a form left at order 0 goes after the listed
      features; editing a feature and saving it unchanged keeps its order
      unless that order was 0, which becomes the number of listed features. */
  lemma DisplayOrderOnSave(product: string, features: seq<ProductFeature>, f: ProductFeature)
    ensures FeatureDataOf(Some(product), EmptyForm, features).value.displayOrder == |features|
    ensures f.displayOrder != 0 ==> FeatureDataOf(Some(product), FormOf(f), features).value.displayOrder == f.displayOrder
    ensures f.displayOrder == 0 ==> FeatureDataOf(Some(product), FormOf(f), features).value.displayOrder == |features|
  {
  }

  /** How renderFeatureValue shows a value. Dates and numbers go through the
      browser's locale formatting, which stays uninterpreted here. */
  datatype Rendered = YesNo(yes: bool) | LocaleDate(raw: string) | LocaleNumber(raw: string) | Plain(text: string)

  /** renderFeatureValue: a boolean feature shows "Yes" exactly when its
      value is the string 'true'; a text feature shows its value. */
  function RenderFeatureValue(f: ProductFeature): (r: Rendered)
    ensures f.featureType == Boolean ==> r.YesNo? && (r.yes <==> f.value == "true")
    ensures f.featureType == Text ==> r == Plain(f.value)
    ensures f.featureType == Date ==> r == LocaleDate(f.value)
    ensures f.featureType == Number ==> r == LocaleNumber(f.value)
  {
    match f.featureType
    case Boolean => YesNo(f.value == "true")
    case Date => LocaleDate(f.value)
    case Number => LocaleNumber(f.value)
    case _ => Plain(f.value)
  }

  /** The label of a Yes/No badge. */
  function YesNoLabel(yes: bool): (r: string)
    ensures r == "Yes" <==> yes
    ensures r == "No" <==> !yes
  {
    if yes then "Yes" else "No"
  }

  /** The feature-type select's onChange: the new type, an empty value, and
      every other field kept. */
  function ChangeType(form: FeatureForm, t: FeatureType): (r: FeatureForm)
    ensures r.featureType == t && r.value == ""
    ensures r.name == form.name && r.isRequired == form.isRequired && r.displayOrder == form.displayOrder
  {
    form.(featureType := t, value := "")
  }

  /** Switching a form to Boolean leaves a value that shows as "No" until
      the user sets it. */
  lemma ChangeToBooleanShowsNo(form: FeatureForm, id: string, product: string)
    ensures var g := ChangeType(form, Boolean);
            RenderFeatureValue(ProductFeature(id, product, g.name, g.value, g.featureType, g.isRequired, g.displayOrder)) == YesNo(false)
  {
  }
}
