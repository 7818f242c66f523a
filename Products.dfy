/** The product table operations of ProductService. The product repository is
    a map from id to product record owned by the service object, the category
    repository a map from category name to category; file writes are reported
    as out-values, and the rounded percentage arithmetic is a function parameter. */
module Products {
  import opened Common
  import Errors

  datatype Category = Category(id: int, categoryName: string)

  datatype Product = Product(id: int, category: Category, name: string, description: string,
                             priceAfterDiscount: real, priceBeforeDiscount: real, stockQuantity: int,
                             imageUrl: string, discountPercent: int)

  datatype ProductRequest = ProductRequest(name: string, description: string, priceBeforeDiscount: real,
                                           priceAfterDiscount: real, stockQuantity: int, category: string,
                                           image: Option<Upload>)

  const ProductImagesUrl := "/images/"
  const UpdatedImagesUrl := "http://localhost:8080/images/"
  const InvalidImageMessage := "Invalid image file"
  const DiscountMessage := "Price before discount must be greater than Price After discount"

  /** calculateDiscountPercent: the guard, then the rounded percentage. */
  function CalculateDiscountPercent(priceBefore: real, priceAfter: real, percentOf: (real, real) -> int)
    : (r: Result<int, Errors.Thrown>)
    ensures r.Err? <==> 0.0 < priceBefore <= priceAfter
    ensures r.Err? ==> r.error == Errors.InvalidArgument(DiscountMessage)
    ensures r.Ok? ==> r.value == percentOf(priceBefore, priceAfter)
  {
    if priceBefore > 0.0 && priceBefore <= priceAfter then Err(Errors.InvalidArgument(DiscountMessage))
    else Ok(percentOf(priceBefore, priceAfter))
  }

  /** A real discount always passes the guard; as written the guard also lets
      through any non-positive former price, even when the new price is higher. */
  lemma DiscountGuard(priceBefore: real, priceAfter: real, percentOf: (real, real) -> int)
    ensures priceBefore > priceAfter ==> CalculateDiscountPercent(priceBefore, priceAfter, percentOf).Ok?
    ensures priceBefore <= 0.0 ==> CalculateDiscountPercent(priceBefore, priceAfter, percentOf).Ok?
    ensures CalculateDiscountPercent(0.0, 10.0, percentOf).Ok?
  {
  }

  /** `image.isEmpty() || !image.getContentType().startsWith("image/")` */
  predicate InvalidImage(image: Upload)
  {
    image.isEmpty || !IsImageType(image)
  }

  class ProductService {
    var products: map<int, Product>
    /** The id the repository gives the next saved product. */
    var nextId: int
    const categories: map<string, Category>
    const percentOf: (real, real) -> int

    ghost predicate Valid()
      reads this
    {
      forall id :: id in products ==> id < nextId && products[id].id == id
    }

    constructor (categories: map<string, Category>, percentOf: (real, real) -> int)
      ensures Valid() && products == map[] && this.categories == categories && this.percentOf == percentOf
    {
      this.categories := categories;
      this.percentOf := percentOf;
      products := map[];
      nextId := 1;
    }

    method DeleteProduct(productId: int) returns (result: Result<(), Errors.Thrown>)
      requires Valid()
      modifies this
      ensures Valid() && nextId == old(nextId)
      ensures productId in old(products) ==> result == Ok(()) && products == old(products) - {productId}
      ensures productId !in old(products) ==>
                result == Err(Errors.NotFound("Product with ID + categoryId + not found")) && products == old(products)
    {
      if productId !in products {
        return Err(Errors.NotFound("Product with ID + categoryId + not found"));
      }
      products := products - {productId};
      return Ok(());
    }

    /** registerNewProduct. The upload is written before the discount guard
        runs, so a rejected price leaves a saved file and no product. */
    method RegisterNewProduct(request: ProductRequest, fileName: string)
      returns (result: Result<Product, Errors.Thrown>, savedFile: Option<string>)
      requires Valid()
      modifies this
      ensures Valid()
      ensures request.category !in categories ==> result == Err(Errors.NotFound("Category not found"))
      ensures request.category in categories && request.image.None? ==>
                result.Err? && result.error.cls == Errors.NullPointerException
      ensures request.category in categories && request.image.Some? && InvalidImage(request.image.value) ==>
                result == Err(Errors.InvalidArgument(InvalidImageMessage))
      ensures savedFile == if request.category in categories && request.image.Some? && !InvalidImage(request.image.value)
                           then Some(fileName) else None
      ensures savedFile.Some? ==>
                result == match CalculateDiscountPercent(request.priceBeforeDiscount, request.priceAfterDiscount, percentOf)
                          case Err(e) => Err(e)
                          case Ok(percent) =>
                            Ok(Product(old(nextId), categories[request.category], request.name, request.description,
                                       request.priceAfterDiscount, request.priceBeforeDiscount, request.stockQuantity,
                                       ProductImagesUrl + fileName, percent))
      ensures result.Err? ==> products == old(products) && nextId == old(nextId)
      ensures result.Ok? ==> old(nextId) !in old(products) && products == old(products)[old(nextId) := result.value]
                             && nextId == old(nextId) + 1
    {
      savedFile := None;
      if request.category !in categories {
        return Err(Errors.NotFound("Category not found")), None;
      }
      var category := categories[request.category];
      if request.image.None? {
        // image.isEmpty() on null; the catch-all handler hides the message
        return Err(Errors.Raise(Errors.NullPointerException, "")), None;
      }
      var image := request.image.value;
      if image.isEmpty || !StartsWith(image.contentType, "image/") {
        return Err(Errors.InvalidArgument(InvalidImageMessage)), None;
      }
      savedFile := Some(fileName);
      var discount := CalculateDiscountPercent(request.priceBeforeDiscount, request.priceAfterDiscount, percentOf);
      if discount.Err? {
        return Err(discount.error), savedFile;
      }
      var product := Product(nextId, category, request.name, request.description, request.priceAfterDiscount,
                             request.priceBeforeDiscount, request.stockQuantity, ProductImagesUrl + fileName, discount.value);
      products := products[nextId := product];
      nextId := nextId + 1;
      result := Ok(product);
    }

    /** updateProduct. The discount percentage is not recomputed, and a
        supplied image is taken without a content-type check. */
    method UpdateProduct(productId: int, request: ProductRequest)
      returns (result: Result<Product, Errors.Thrown>, savedFile: Option<string>)
      requires Valid()
      modifies this
      ensures Valid() && nextId == old(nextId)
      ensures productId !in old(products) ==>
                result == Err(Errors.NotFound(" product with id " + IntToString(productId) + " doesn't exist "))
      ensures productId in old(products) && request.category !in categories ==>
                result == Err(Errors.NotFound("Category not Found"))
      ensures result.Ok? <==> productId in old(products) && request.category in categories
      ensures result.Err? ==> products == old(products) && savedFile.None?
      ensures result.Ok? ==>
                var old_ := old(products)[productId];
                && result.value == old_.(name := request.name, description := request.description,
                                         priceAfterDiscount := request.priceAfterDiscount,
                                         priceBeforeDiscount := request.priceBeforeDiscount,
                                         stockQuantity := request.stockQuantity, category := categories[request.category],
                                         imageUrl := if request.image.Some? then UpdatedImagesUrl + request.image.value.originalFilename
                                                     else old_.imageUrl)
                && products == old(products)[productId := result.value]
                && savedFile == (if request.image.Some? then Some(request.image.value.originalFilename) else None)
    {
      savedFile := None;
      if productId !in products {
        return Err(Errors.NotFound(" product with id " + IntToString(productId) + " doesn't exist ")), None;
      }
      var product := products[productId];
      if request.category !in categories {
        return Err(Errors.NotFound("Category not Found")), None;
      }
      var category := categories[request.category];
      product := product.(name := request.name, description := request.description,
                          priceAfterDiscount := request.priceAfterDiscount,
                          priceBeforeDiscount := request.priceBeforeDiscount,
                          stockQuantity := request.stockQuantity, category := category);
      if request.image.Some? {
        savedFile := Some(request.image.value.originalFilename);
        product := product.(imageUrl := UpdatedImagesUrl + request.image.value.originalFilename);
      }
      products := products[productId := product];
      result := Ok(product);
    }
  }

  /** How the errors of this service reach the client: a missing product or
      category is 404; a rejected image, a rejected price or a missing upload
      falls through to the catch-all 500 with its message hidden. */
  lemma ProductErrorResponses(requestUri: string, now: int)
    ensures Errors.Handle(Errors.NotFound("Category not found"), requestUri, now).status == Errors.NotFoundStatus
    ensures Errors.Handle(Errors.InvalidArgument(InvalidImageMessage), requestUri, now)
            == Errors.BuildResponseEntity(requestUri, Errors.UnexpectedMessage, Errors.InternalServerError, now)
    ensures Errors.Handle(Errors.InvalidArgument(DiscountMessage), requestUri, now)
            == Errors.BuildResponseEntity(requestUri, Errors.UnexpectedMessage, Errors.InternalServerError, now)
    ensures Errors.Handle(Errors.Raise(Errors.NullPointerException, ""), requestUri, now)
            == Errors.BuildResponseEntity(requestUri, Errors.UnexpectedMessage, Errors.InternalServerError, now)
  {
    Errors.CatchAllClasses(Errors.IllegalArgumentException);
    Errors.CatchAllClasses(Errors.NullPointerException);
  }
}
