/** The lesser and the greater of two numbers. */
module Numbers {
  function Min(x: nat, y: nat): nat { if x < y then x else y }

  function Max(x: nat, y: nat): nat { if x < y then y else x }
}
